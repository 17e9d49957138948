/**
 The guard against acting on a stale record: a reconcile is to keep away from the clusters
 while a status update of its record has not been reported back by the informer.  Exactly
 when the guard fails, over whole runs and at any single moment.
 */
module RecordGuard {
  import opened Collections
  import opened Updater
  import opened PropagatedVersion

  // ---------- Keys ----------

  datatype QualifiedName = QualifiedName(namespace: string, name: string)

  function Rendered(q: QualifiedName): string {
    if q.namespace == "" then q.name else q.namespace + "/" + q.name
  }

  function LowerChar(c: char): char {
    if 'A' <= c <= 'Z' then (c as int + 32) as char else c
  }

  function Lower(s: string): string {
    if s == "" then "" else [LowerChar(s[0])] + Lower(s[1..])
  }

  function VersionName(kind: string, name: string): string {
    Lower(kind) + "-" + name
  }

  const NAMESPACE_KIND := "Namespace"

  /** The name of a template's record: it is created under it, and events report it by it. */
  function RecordName(kind: string, template: QualifiedName): QualifiedName {
    QualifiedName(if kind == NAMESPACE_KIND then template.name else template.namespace, VersionName(kind, template.name))
  }

  /** The key by which the record is marked, cleared and looked up. */
  function RecordKey(kind: string, template: QualifiedName): string {
    Rendered(RecordName(kind, template))
  }

  predicate NoSlash(s: string) {
    forall i :: 0 <= i < |s| ==> s[i] != '/'
  }

  lemma {:induction false} LowerKeepsNoSlash(s: string)
    requires NoSlash(s)
    ensures NoSlash(Lower(s))
  {
    if s != "" { LowerKeepsNoSlash(s[1..]); }
  }

  lemma {:induction false} SplitAtSlash(a: string, b: string, c: string, d: string)
    requires NoSlash(a) && NoSlash(c) && a + "/" + b == c + "/" + d
    ensures a == c && b == d
  {
    var s, t := a + "/" + b, c + "/" + d;
    assert s[|a|] == '/' && t[|c|] == '/';
    forall i | 0 <= i < |a| ensures s[i] != '/' { assert s[i] == a[i]; }
    forall i | 0 <= i < |c| ensures t[i] != '/' { assert t[i] == c[i]; }
    assert |a| == |c|;
    assert a == s[..|a|] && c == t[..|c|];
    assert b == s[|a|+1..] && d == t[|c|+1..];
  }

  lemma HasSlash(a: string, b: string)
    ensures !NoSlash(a + "/" + b)
  {
    assert (a + "/" + b)[|a|] == '/';
  }

  /** Whether a name contains a slash tells rendered namespaced names from bare ones. */
  lemma RenderedIsInjective(p: QualifiedName, q: QualifiedName)
    requires NoSlash(p.namespace) && NoSlash(p.name) && NoSlash(q.namespace) && NoSlash(q.name)
    requires Rendered(p) == Rendered(q)
    ensures p == q
  {
    HasSlash(p.namespace, p.name);
    HasSlash(q.namespace, q.name);
    if p.namespace != "" && q.namespace != "" {
      SplitAtSlash(p.namespace, p.name, q.namespace, q.name);
    }
  }

  /** Templates of one kind never share a key, although rendering a name drops an empty namespace. */
  lemma KeysDiffer(kind: string, s: QualifiedName, t: QualifiedName)
    requires NoSlash(kind) && NoSlash(s.namespace) && NoSlash(s.name) && NoSlash(t.namespace) && NoSlash(t.name)
    requires kind == NAMESPACE_KIND ==> s.namespace == t.namespace == ""
    ensures RecordKey(kind, s) == RecordKey(kind, t) <==> s == t
  {
    LowerKeepsNoSlash(kind);
    if RecordKey(kind, s) == RecordKey(kind, t) {
      RenderedIsInjective(RecordName(kind, s), RecordName(kind, t));
      assert VersionName(kind, s.name)[|Lower(kind)|+1..] == s.name;
      assert VersionName(kind, t.name)[|Lower(kind)|+1..] == t.name;
    }
  }

  // ---------- The protocol ----------

  /** A record as of one of its writes; later writes have higher versions. */
  datatype Stamped = Stamped(version: nat, record: Record)

  /**
   Where the one worker is: not writing, having created a record, about to send a status update made
   from the version it read or just created, or holding the answer, which is an error if the update was
   refused or its reply was lost.
   */
  datatype Phase = Idle | Created(record: Record) | Marked(record: Record, base: nat, first: bool) | Applied | Refused | Lost

  /**
   The server's record, the informer's copy of it with what it has yet to handle, the version of the
   last status update that was applied, and the pending mark.
   */
  datatype Guard = Guard(
    server: Option<Stamped>,
    cached: Option<Stamped>,
    events: seq<Stamped>,
    updated: nat,
    pending: bool,
    phase: Phase)

  datatype Step =
    | Create(record: Record)       // the server creates the record
    | LoseCreate                   // creating it is answered with an error
    | MarkCreated                  // mark the created record pending, to write its status
    | Mark(record: Record)         // mark an existing record pending
    | Apply                        // the server takes the status update
    | ApplySame                    // it does, but has nothing to change, so nothing is reported
    | Refuse                       // the server refuses it
    | Return                       // the answer is handled
    | LoseReply                    // an applied update is answered with an error
    | Deliver                      // the informer handles its next event
    | Relist(from: nat, to: nat)   // the watch breaks after some events, and a list shows the record as of a later one

  /** A reconcile gets as far as operating on clusters. */
  predicate MaySync(g: Guard) {
    g.phase.Idle? && !g.pending
  }

  /** What the informer has once it has handled its first `j` events. */
  function After(g: Guard, j: nat): Option<Stamped>
    requires j <= |g.events|
  {
    if j == 0 then g.cached else Some(g.events[j-1])
  }

  function CachedVersion(g: Guard): nat {
    if g.cached.Some? then g.cached.value.version else 0
  }

  /** The server takes the update, which was made from its record's version. */
  predicate Takes(g: Guard) {
    g.phase.Marked? && g.server.Some? && g.server.value.version == g.phase.base
  }

  /**
   And it has something to change: the record is another, or it was created without the status that it had
   been sent with, and is now given an empty one.
   */
  predicate Changes(g: Guard) {
    Takes(g) && (g.server.value.record != g.phase.record || (g.phase.first && g.phase.record == EMPTY_RECORD))
  }

  /** The informer calls a record it knows an update, changed or not, and an update clears the mark. */
  ghost predicate Next(g: Guard, s: Step, g': Guard) {
    match s
    case Create(r) =>
      MaySync(g) && g.cached.None? && g.server.None?
      && g' == g.(server := Some(Stamped(1, r)), events := g.events + [Stamped(1, r)], phase := Created(r))
    case LoseCreate => g.phase.Created? && g' == g.(phase := Idle)
    case MarkCreated => g.phase.Created? && g' == g.(pending := true, phase := Marked(g.phase.record, 1, true))
    case Mark(r) =>
      MaySync(g) && g.cached.Some? && (g.cached.value.record != r || r.versions == map[])
      && g' == g.(pending := true, phase := Marked(r, g.cached.value.version, false))
    case ApplySame => Takes(g) && !Changes(g) && g' == g.(phase := Applied)
    case Apply =>
      Changes(g)
      && var now := Stamped(g.phase.base + 1, g.phase.record);
         g' == g.(server := Some(now), events := g.events + [now], updated := now.version, phase := Applied)
    case Refuse => g.phase.Marked? && g' == g.(phase := Refused)
    case Return =>
      (g.phase.Applied? && g' == g.(phase := Idle))
      || ((g.phase.Refused? || g.phase.Lost?) && g' == g.(phase := Idle, pending := false))
    case LoseReply => g.phase.Applied? && g' == g.(phase := Lost)
    case Deliver =>
      g.events != []
      && g' == g.(cached := Some(g.events[0]), events := g.events[1..], pending := g.pending && g.cached.None?)
    case Relist(from, to) =>
      from <= to <= |g.events| && After(g, to).Some?
      && g' == g.(events := g.events[..from] + [After(g, to).value] + g.events[to..])
  }

  const START := Guard(None, None, [], 0, false, Idle)

  ghost predicate Path(gs: seq<Guard>, steps: seq<Step>) {
    && |gs| == |steps| + 1
    && forall i :: 0 <= i < |steps| ==> Next(gs[i], steps[i], gs[i+1])
  }

  ghost predicate Run(gs: seq<Guard>, steps: seq<Step>) {
    Path(gs, steps) && gs[0] == START
  }

  /** The last status update has been applied, but the informer has not reported it. */
  predicate Undelivered(g: Guard) {
    CachedVersion(g) < g.updated
  }

  /** A reconcile may act on a record that the server has replaced. */
  predicate Breach(g: Guard) {
    MaySync(g) && Undelivered(g)
  }

  // ---------- What holds in every run ----------

  /** The informer's copy, if any, and what it has yet to handle. */
  function Line(g: Guard): seq<Stamped> {
    (if g.cached.Some? then [g.cached.value] else []) + g.events
  }

  /** Versions grow along the line up to the last, which is `last` alone. */
  ghost predicate Leads(line: seq<Stamped>, last: Stamped) {
    && line != [] && line[|line|-1] == last
    && (forall i :: 0 <= i < |line| ==> 1 <= line[i].version && (line[i].version >= last.version ==> line[i] == last))
    && (forall i, j :: 0 <= i < j < |line| ==> line[i].version <= line[j].version)
  }

  /** From the informer's copy to the server's record versions grow, and a write is never taken for another. */
  ghost predicate Consistent(g: Guard) {
    && (if g.server.None? then Line(g) == [] && g.updated == 0 && g.phase.Idle?
        else Leads(Line(g), g.server.value) && g.server.value.version == Max(1, g.updated))
    && (g.phase.Created? ==> g.updated == 0)
  }

  lemma LeadsOn(line: seq<Stamped>, last: Stamped, next: Stamped)
    requires Leads(line, last) && last.version < next.version
    ensures Leads(line + [next], next)
  {
  }

  lemma SplicedAt<T>(line: seq<T>, a: nat, b: nat, i: nat)
    requires a <= b <= |line| && 1 <= b && i < a + (|line| - (b - 1))
    ensures (line[..a] + line[b-1..])[i] == line[if i < a then i else i - a + (b - 1)]
  {
  }

  lemma LeadsSpliced(line: seq<Stamped>, last: Stamped, a: nat, b: nat)
    requires Leads(line, last) && a <= b <= |line| && 1 <= b
    ensures Leads(line[..a] + line[b-1..], last)
  {
    var line' := line[..a] + line[b-1..];
    forall i | 0 <= i < |line'|
      ensures 1 <= line'[i].version && (line'[i].version >= last.version ==> line'[i] == last)
    {
      SplicedAt(line, a, b, i);
    }
    forall i, j | 0 <= i < j < |line'| ensures line'[i].version <= line'[j].version {
      SplicedAt(line, a, b, i);
      SplicedAt(line, a, b, j);
    }
    SplicedAt(line, a, b, |line'| - 1);
  }

  lemma LeadsFromSecond(line: seq<Stamped>, last: Stamped)
    requires Leads(line, last) && |line| >= 2
    ensures Leads(line[1..], last) && line[0].version <= line[1].version
  {
  }

  lemma Spliced<T>(head: seq<T>, events: seq<T>, from: nat, to: nat)
    requires from <= to <= |events| && 1 <= |head| + to
    ensures var line := head + events;
      head + (events[..from] + [line[|head| + to - 1]] + events[to..]) == line[..|head| + from] + line[|head| + to - 1..]
  {
    var line := head + events;
    assert line[..|head| + from] == head + events[..from];
    assert line[|head| + to - 1..] == [line[|head| + to - 1]] + line[|head| + to..];
    assert line[|head| + to..] == events[to..];
  }

  lemma LineSpliced(g: Guard, from: nat, to: nat, g': Guard)
    requires Next(g, Relist(from, to), g')
    ensures var c := if g.cached.Some? then 1 else 0;
      1 <= c + to <= |Line(g)| && Line(g') == Line(g)[..c + from] + Line(g)[c + to - 1..]
  {
    Spliced(if g.cached.Some? then [g.cached.value] else [], g.events, from, to);
  }

  lemma RelistKeepsConsistent(g: Guard, from: nat, to: nat, g': Guard)
    requires Consistent(g) && Next(g, Relist(from, to), g')
    ensures Consistent(g')
  {
    var c := if g.cached.Some? then 1 else 0;
    LineSpliced(g, from, to, g');
    LeadsSpliced(Line(g), g.server.value, c + from, c + to);
  }

  lemma DeliverKeepsConsistent(g: Guard, g': Guard)
    requires Consistent(g) && Next(g, Deliver, g')
    ensures Consistent(g') && CachedVersion(g) <= CachedVersion(g')
  {
    if g.cached.Some? {
      assert Line(g') == Line(g)[1..];
      assert Line(g)[0] == g.cached.value && Line(g)[1] == g.events[0];
      LeadsFromSecond(Line(g), g.server.value);
    } else {
      assert Line(g') == Line(g);
    }
  }

  /** The versions to be handled grow from the informer's to the server's. */
  lemma EventsGrow(g: Guard, i: nat, j: nat)
    requires Consistent(g) && i <= j < |g.events|
    ensures g.server.Some? && CachedVersion(g) <= g.events[i].version <= g.events[j].version <= g.server.value.version
  {
    var c := if g.cached.Some? then 1 else 0;
    assert Line(g)[c + i] == g.events[i] && Line(g)[c + j] == g.events[j];
    assert g.cached.Some? ==> Line(g)[0] == g.cached.value;
    assert g.events[|g.events|-1] == g.server.value;
  }

  lemma CreateKeepsConsistent(g: Guard, r: Record, g': Guard)
    requires Consistent(g) && Next(g, Create(r), g')
    ensures Consistent(g')
  {
    assert Line(g') == [g'.server.value];
  }

  lemma ApplyKeepsConsistent(g: Guard, g': Guard)
    requires Consistent(g) && Next(g, Apply, g')
    ensures Consistent(g')
  {
    assert Line(g') == Line(g) + [g'.server.value];
    LeadsOn(Line(g), g.server.value, g'.server.value);
  }

  lemma StepKeepsConsistent(g: Guard, s: Step, g': Guard)
    requires Consistent(g) && Next(g, s, g')
    ensures Consistent(g')
    ensures CachedVersion(g) <= CachedVersion(g')
  {
    match s
    case Relist(from, to) => RelistKeepsConsistent(g, from, to, g');
    case Deliver => DeliverKeepsConsistent(g, g');
    case Create(r) => CreateKeepsConsistent(g, r, g');
    case Apply => ApplyKeepsConsistent(g, g');
    case _ => assert Line(g') == Line(g);
  }

  lemma {:induction false} RunsAreConsistent(gs: seq<Guard>, steps: seq<Step>, i: nat)
    requires Run(gs, steps) && i < |gs|
    ensures Consistent(gs[i])
  {
    if i > 0 {
      RunsAreConsistent(gs, steps, i - 1);
      assert Next(gs[i-1], steps[i-1], gs[i]);
      StepKeepsConsistent(gs[i-1], steps[i-1], gs[i]);
    }
  }

  lemma CacheGrowsNext(gs: seq<Guard>, steps: seq<Step>, i: nat)
    requires Run(gs, steps) && i < |steps|
    ensures CachedVersion(gs[i]) <= CachedVersion(gs[i+1])
  {
    RunsAreConsistent(gs, steps, i);
    assert Next(gs[i], steps[i], gs[i+1]);
    StepKeepsConsistent(gs[i], steps[i], gs[i+1]);
  }

  lemma {:induction false} CacheGrows(gs: seq<Guard>, steps: seq<Step>, a: nat, b: nat)
    requires Run(gs, steps) && a <= b < |gs|
    ensures CachedVersion(gs[a]) <= CachedVersion(gs[b])
    decreases b
  {
    if a < b {
      CacheGrows(gs, steps, a, b - 1);
      CacheGrowsNext(gs, steps, b - 1);
    }
  }

  /** Whoever does not act in breach of the guard reads the server's record, or none where one has just been created. */
  lemma UnbreachedReadsServer(gs: seq<Guard>, steps: seq<Step>, i: nat)
    requires Run(gs, steps) && i < |gs| && MaySync(gs[i])
    ensures Breach(gs[i]) || gs[i].cached == gs[i].server || (gs[i].cached.None? && gs[i].server.value.version == 1)
    ensures Breach(gs[i]) ==> gs[i].server.Some? && CachedVersion(gs[i]) < gs[i].server.value.version
  {
    RunsAreConsistent(gs, steps, i);
    if gs[i].cached.Some? { assert gs[i].cached.value == Line(gs[i])[0]; }
  }

  // ---------- Over whole runs: what defeats the guard ----------

  predicate Starts(s: Step) {
    s.Mark? || s.MarkCreated?
  }

  /**
   Step `k` clears the mark before the update has been reported, and with no other write started it is
   still unreported when the worker is idle: an error was handled although the update had been applied,
   or the informer handled an event older than the update.
   */
  ghost predicate EarlyClear(gs: seq<Guard>, steps: seq<Step>, k: int, i: int) {
    && 0 <= k < i < |gs| && |gs| == |steps| + 1
    && gs[i].phase.Idle? && Undelivered(gs[i])
    && (forall j :: k < j < i ==> !Starts(steps[j]))
    && ((steps[k].Return? && gs[k].phase.Lost?)
        || (steps[k].Deliver? && gs[k].cached.Some? && gs[k].events != [] && gs[k].events[0].version < gs[i].updated))
  }

  lemma {:induction false} StaysUnmarked(gs: seq<Guard>, steps: seq<Step>, a: nat, b: nat)
    requires Run(gs, steps) && a <= b < |gs| && !gs[a].pending
    requires forall j :: a <= j < b ==> !Starts(steps[j])
    ensures !gs[b].pending
    decreases b
  {
    if a < b {
      StaysUnmarked(gs, steps, a, b - 1);
      assert Next(gs[b-1], steps[b-1], gs[b]);
    }
  }

  lemma EarlyClearBreaches(gs: seq<Guard>, steps: seq<Step>, k: nat, i: nat)
    requires Run(gs, steps) && EarlyClear(gs, steps, k, i)
    ensures Breach(gs[i])
  {
    assert Next(gs[k], steps[k], gs[k+1]);
    StaysUnmarked(gs, steps, k + 1, i);
  }

  lemma {:induction false} LastStart(gs: seq<Guard>, steps: seq<Step>, i: nat) returns (m: nat)
    requires Run(gs, steps) && i < |gs| && (gs[i].updated > 0 || gs[i].phase.Marked?)
    ensures m < i && Starts(steps[m]) && forall j :: m < j < i ==> !Starts(steps[j])
  {
    assert Next(gs[i-1], steps[i-1], gs[i]);
    if Starts(steps[i-1]) {
      m := i - 1;
    } else {
      m := LastStart(gs, steps, i - 1);
    }
  }

  lemma {:induction false} WhereCleared(gs: seq<Guard>, steps: seq<Step>, a: nat, i: nat) returns (k: nat)
    requires Run(gs, steps) && a <= i < |gs| && gs[a].pending && !gs[i].pending
    ensures a <= k < i && gs[k].pending && !gs[k+1].pending
    decreases i
  {
    if gs[i-1].pending {
      k := i - 1;
    } else {
      k := WhereCleared(gs, steps, a, i - 1);
    }
  }

  /** A refused update was not applied. */
  lemma {:induction false} RefusedIsUnapplied(gs: seq<Guard>, steps: seq<Step>, m: nat, k: nat)
    requires Run(gs, steps) && m < k < |gs| && Starts(steps[m])
    requires forall j :: m < j < k ==> !Starts(steps[j])
    requires gs[k].phase.Marked? || gs[k].phase.Refused?
    ensures gs[k].updated == gs[m].updated
    decreases k
  {
    assert Next(gs[k-1], steps[k-1], gs[k]);
    if m < k - 1 { RefusedIsUnapplied(gs, steps, m, k - 1); }
  }

  lemma {:induction false} IdleUntilStart(gs: seq<Guard>, steps: seq<Step>, a: nat, b: nat)
    requires Run(gs, steps) && a <= b < |gs| && gs[a].server.Some? && gs[a].phase.Idle?
    requires forall j :: a <= j < b ==> !Starts(steps[j])
    ensures gs[b].phase.Idle? && gs[b].updated == gs[a].updated && gs[b].server == gs[a].server
    decreases b
  {
    if a < b {
      IdleUntilStart(gs, steps, a, b - 1);
      assert Next(gs[b-1], steps[b-1], gs[b]);
    }
  }

  /** After a refusal an update can only be unreported because the guard had failed before. */
  lemma RefusalAfterBreach(gs: seq<Guard>, steps: seq<Step>, m: nat, k: nat, i: nat)
    requires Run(gs, steps) && m < k < i < |gs| && Starts(steps[m])
    requires forall j :: m < j < i ==> !Starts(steps[j])
    requires steps[k].Return? && gs[k].phase.Refused? && Breach(gs[i])
    ensures Breach(gs[m])
  {
    RefusedIsUnapplied(gs, steps, m, k);
    RunsAreConsistent(gs, steps, k);
    RunsAreConsistent(gs, steps, m);
    assert Next(gs[k], steps[k], gs[k+1]);
    assert Next(gs[m], steps[m], gs[m+1]);
    IdleUntilStart(gs, steps, k + 1, i);
    CacheGrows(gs, steps, m, i);
  }

  lemma {:induction false} BreachHasEarlyClear(gs: seq<Guard>, steps: seq<Step>, i: nat) returns (k: nat, b: nat)
    requires Run(gs, steps) && i < |gs| && Breach(gs[i])
    ensures EarlyClear(gs, steps, k, b)
    decreases i
  {
    var m := LastStart(gs, steps, i);
    assert Next(gs[m], steps[m], gs[m+1]);
    k := WhereCleared(gs, steps, m + 1, i);
    b := i;
    assert Next(gs[k], steps[k], gs[k+1]);
    if gs[k].phase.Refused? && steps[k].Return? {
      RefusalAfterBreach(gs, steps, m, k, i);
      k, b := BreachHasEarlyClear(gs, steps, m);
    } else if steps[k].Deliver? {
      CacheGrows(gs, steps, k + 1, i);
    }
  }

  /** The guard fails somewhere in a run exactly when the mark is cleared early somewhere in it. */
  lemma GuardFailsIffClearedEarly(gs: seq<Guard>, steps: seq<Step>)
    requires Run(gs, steps)
    ensures (exists i :: 0 <= i < |gs| && Breach(gs[i])) <==> (exists k, i :: EarlyClear(gs, steps, k, i))
  {
    if i :| 0 <= i < |gs| && Breach(gs[i]) {
      var k, b := BreachHasEarlyClear(gs, steps, i);
    }
    if k, i :| EarlyClear(gs, steps, k, i) {
      EarlyClearBreaches(gs, steps, k, i);
    }
  }

  // ---------- At one moment: whether the guard can fail ----------

  /** Among the events to be handled is one older than the update that would be taken for its report. */
  ghost predicate Disturbed(g: Guard) {
    exists j :: 0 <= j < |g.events| && (j > 0 || g.cached.Some?) && (Changes(g) || g.events[j].version < g.updated)
  }

  /** A write is under way, with the mark set: the server can apply it, or has and the informer does not know. */
  ghost predicate UnderWay(g: Guard) {
    && g.pending
    && ((Takes(g) && !Undelivered(g))
        || ((g.phase.Applied? || g.phase.Idle?) && Undelivered(g)))
  }

  /** The regular course of a write: answered truthfully, over an unbroken watch. */
  predicate Regular(s: Step) {
    s.Apply? || s.ApplySame? || s.Refuse? || s.Return? || s.Deliver?
  }

  ghost predicate CanBreach(g: Guard) {
    exists gs: seq<Guard>, steps: seq<Step> ::
      Path(gs, steps) && gs[0] == g && (forall s :: s in steps ==> Regular(s)) && Breach(gs[|gs|-1])
  }

  /** No event will be mistaken for the report of the update, and the mark stands as long as it should. */
  ghost predicate Calm(g: Guard) {
    && Consistent(g) && !Disturbed(g) && !g.phase.Lost?
    && (Changes(g) || Undelivered(g) ==> g.pending)
    && (g.phase.Marked? || g.phase.Refused? ==> !Undelivered(g))
  }

  lemma ApplyKeepsCalm(g: Guard, g': Guard)
    requires Calm(g) && Next(g, Apply, g')
    ensures Calm(g')
  {
    StepKeepsConsistent(g, Apply, g');
    forall j | 0 <= j < |g'.events| && (j > 0 || g'.cached.Some?) ensures g'.events[j].version >= g'.updated {
      assert j >= |g.events|;
    }
  }

  lemma DeliverKeepsCalm(g: Guard, g': Guard)
    requires Calm(g) && Next(g, Deliver, g')
    ensures Calm(g')
  {
    StepKeepsConsistent(g, Deliver, g');
    assert forall j :: 0 <= j < |g'.events| ==> g'.events[j] == g.events[j+1];
    if g.cached.Some? { assert g.events[0] == g'.cached.value; }
  }

  lemma AnswerKeepsCalm(g: Guard, s: Step, g': Guard)
    requires Calm(g) && Next(g, s, g') && (s.ApplySame? || s.Refuse? || s.Return?)
    ensures Calm(g')
  {
    assert g'.events == g.events && Line(g') == Line(g);
  }

  lemma RegularKeepsCalm(g: Guard, s: Step, g': Guard)
    requires Calm(g) && Next(g, s, g') && Regular(s)
    ensures Calm(g')
  {
    if s.Apply? { ApplyKeepsCalm(g, g'); }
    else if s.Deliver? { DeliverKeepsCalm(g, g'); }
    else { AnswerKeepsCalm(g, s, g'); }
  }

  lemma CalmNext(gs: seq<Guard>, steps: seq<Step>, i: nat)
    requires Path(gs, steps) && i < |steps| && Calm(gs[i]) && forall s :: s in steps ==> Regular(s)
    ensures Calm(gs[i+1])
  {
    assert steps[i] in steps;
    assert Next(gs[i], steps[i], gs[i+1]);
    RegularKeepsCalm(gs[i], steps[i], gs[i+1]);
  }

  lemma {:induction false} CalmStays(gs: seq<Guard>, steps: seq<Step>, i: nat)
    requires Path(gs, steps) && i < |gs| && Calm(gs[0]) && forall s :: s in steps ==> Regular(s)
    ensures Calm(gs[i])
  {
    if i > 0 {
      CalmStays(gs, steps, i - 1);
      CalmNext(gs, steps, i - 1);
    }
  }

  function Delivered(g: Guard): Guard
    requires g.events != []
  {
    g.(cached := Some(g.events[0]), events := g.events[1..], pending := g.pending && g.cached.None?)
  }

  /** With the update applied and the worker idle, handling the older event is all it takes. */
  lemma IdleCanBreach(g: Guard)
    requires Consistent(g) && UnderWay(g) && g.phase.Idle? && Disturbed(g)
    ensures exists gs: seq<Guard>, steps: seq<Step> ::
      Path(gs, steps) && gs[0] == g && (forall s :: s in steps ==> Regular(s)) && Breach(gs[|gs|-1])
  {
    var j :| 0 <= j < |g.events| && (j > 0 || g.cached.Some?) && g.events[j].version < g.updated;
    var g1 := Delivered(g);
    assert Next(g, Deliver, g1);
    EventsGrow(g, if g.cached.Some? then 0 else 1, j);
    if g.cached.Some? {
      assert Path([g, g1], [Deliver]);
    } else {
      var g2 := Delivered(g1);
      assert g2.cached == Some(g.events[1]);
      assert Next(g1, Deliver, g2);
      assert Path([g, g1, g2], [Deliver, Deliver]);
    }
  }

  lemma CanBreachBefore(g: Guard, s: Step, g': Guard)
    requires Next(g, s, g') && Regular(s) && CanBreach(g')
    ensures CanBreach(g)
  {
    var gs: seq<Guard>, steps: seq<Step> :|
      Path(gs, steps) && gs[0] == g' && (forall s :: s in steps ==> Regular(s)) && Breach(gs[|gs|-1]);
    var gs', steps' := [g] + gs, [s] + steps;
    forall i | 0 <= i < |steps'| ensures Next(gs'[i], steps'[i], gs'[i+1]) {
      if i > 0 { assert Next(gs[i-1], steps[i-1], gs[i]); }
    }
    assert Path(gs', steps');
  }

  lemma DisturbedCanBreach(g: Guard)
    requires Consistent(g) && UnderWay(g) && Disturbed(g)
    ensures CanBreach(g)
  {
    var j :| 0 <= j < |g.events| && (j > 0 || g.cached.Some?) && (Changes(g) || g.events[j].version < g.updated);
    EventsGrow(g, j, j);
    if g.phase.Idle? {
      IdleCanBreach(g);
    } else if g.phase.Applied? {
      var g1 := g.(phase := Idle);
      assert g1.events[j] == g.events[j];
      IdleCanBreach(g1);
      CanBreachBefore(g, Return, g1);
    } else {
      var now := Stamped(g.phase.base + 1, g.phase.record);
      var g1 := g.(server := Some(now), events := g.events + [now], updated := now.version, phase := Applied);
      var g2 := g1.(phase := Idle);
      assert Next(g, Apply, g1);
      StepKeepsConsistent(g, Apply, g1);
      EventsGrow(g, j, j);
      assert g2.events[j] == g.events[j];
      IdleCanBreach(g2);
      CanBreachBefore(g1, Return, g2);
      CanBreachBefore(g, Apply, g1);
    }
  }

  lemma UndisturbedCannotBreach(g: Guard)
    requires Consistent(g) && UnderWay(g) && !Disturbed(g)
    ensures !CanBreach(g)
  {
    forall gs: seq<Guard>, steps: seq<Step>
      | Path(gs, steps) && gs[0] == g && (forall s :: s in steps ==> Regular(s))
      ensures !Breach(gs[|gs|-1])
    {
      CalmStays(gs, steps, |gs| - 1);
    }
  }

  /**
   At every moment of every run at which a write is under way: even its regular course can defeat the
   guard exactly when an event older than the update is still to be handled.
   */
  lemma CanBreachIffDisturbed(gs: seq<Guard>, steps: seq<Step>, i: nat)
    requires Run(gs, steps) && i < |gs| && UnderWay(gs[i])
    ensures CanBreach(gs[i]) <==> Disturbed(gs[i])
  {
    RunsAreConsistent(gs, steps, i);
    if Disturbed(gs[i]) { DisturbedCanBreach(gs[i]); } else { UndisturbedCannotBreach(gs[i]); }
  }

  lemma StepKeepsCalm(g: Guard, s: Step, g': Guard)
    requires Calm(g) && Next(g, s, g') && !s.LoseReply? && !Disturbed(g')
    ensures Calm(g')
  {
    StepKeepsConsistent(g, s, g');
  }

  lemma {:induction false} RunsAreCalm(gs: seq<Guard>, steps: seq<Step>, i: nat)
    requires Run(gs, steps) && i < |gs|
    requires forall k :: 0 <= k < |steps| ==> !steps[k].LoseReply?
    requires forall k :: 0 <= k < |gs| ==> !Disturbed(gs[k])
    ensures Calm(gs[i])
  {
    if i > 0 {
      RunsAreCalm(gs, steps, i - 1);
      assert Next(gs[i-1], steps[i-1], gs[i]);
      StepKeepsCalm(gs[i-1], steps[i-1], gs[i]);
    }
  }

  /**
   As long as no reply is lost and no older event disturbs a write: from sending a status update until
   the informer reports it no reconcile reaches the clusters, and each that does reads the server's
   record, or none where one has just been created.
   */
  lemma NoSyncOnStaleRecord(gs: seq<Guard>, steps: seq<Step>, i: nat)
    requires Run(gs, steps) && i < |gs| && MaySync(gs[i])
    requires forall k :: 0 <= k < |steps| ==> !steps[k].LoseReply?
    requires forall k :: 0 <= k < |gs| ==> !Disturbed(gs[k])
    ensures !Undelivered(gs[i])
    ensures gs[i].cached == gs[i].server || (gs[i].cached.None? && gs[i].server.value.version == 1)
  {
    RunsAreCalm(gs, steps, i);
    UnbreachedReadsServer(gs, steps, i);
  }

  // ---------- The recorder takes these steps ----------

  function RecordIn(s: Option<Stamped>): Option<Record> {
    if s.Some? then Some(s.value.record) else None
  }

  predicate IsWriting(s: Step) {
    s.Create? || s.MarkCreated? || s.Mark? || s.Apply? || s.ApplySame? || s.Refuse? || s.Return?
  }

  /** The server creates a record only where it has none, and takes an update only of the version it has. */
  predicate Answers(g: Guard, w: ApiWrite) {
    && (g.cached.None? && g.server.Some? ==> w.createFails)
    && (g.cached.Some? && g.cached != g.server ==> w.updateFails)
  }

  function Applying(g: Guard): Guard
    requires Takes(g)
  {
    if Changes(g) then
      var now := Stamped(g.phase.base + 1, g.phase.record);
      g.(server := Some(now), events := g.events + [now], updated := now.version, phase := Applied)
    else g.(phase := Applied)
  }

  /** From the mark on: the update is refused and the mark cleared, or it is applied and the mark stays. */
  lemma FinishWrite(g: Guard, fails: bool) returns (gs: seq<Guard>, steps: seq<Step>)
    requires g.phase.Marked? && g.pending && (!fails ==> Takes(g))
    ensures Path(gs, steps) && gs[0] == g && forall s :: s in steps ==> IsWriting(s)
    ensures var g' := gs[|gs|-1];
      && g'.phase.Idle? && g'.pending == !fails && g'.cached == g.cached
      && (if fails then g'.server == g.server else RecordIn(g'.server) == Some(g.phase.record))
  {
    if fails {
      var g1 := g.(phase := Refused);
      var g2 := g1.(phase := Idle, pending := false);
      gs, steps := [g, g1, g2], [Refuse, Return];
    } else {
      var g1 := Applying(g);
      var g2 := g1.(phase := Idle);
      gs, steps := [g, g1, g2], [if Changes(g) then Apply else ApplySame, Return];
      assert Next(g, steps[0], g1) && Next(g1, Return, g2);
    }
  }

  lemma Prepended(g: Guard, s: Step, gs: seq<Guard>, steps: seq<Step>)
    requires Path(gs, steps) && Next(g, s, gs[0])
    ensures Path([g] + gs, [s] + steps)
  {
    forall i | 0 <= i < |[s] + steps| ensures Next(([g] + gs)[i], ([s] + steps)[i], ([g] + gs)[i+1]) {
      if i > 0 { assert Next(gs[i-1], steps[i-1], gs[i]); }
    }
  }

  /** What the recorder does to the server and to the mark is what the steps of a write do. */
  lemma WriteTakesSteps(g: Guard, key: string, template: Version, override: Version, updated: map<string, Version>,
                        selected: seq<string>, w: ApiWrite)
    returns (gs: seq<Guard>, steps: seq<Step>)
    requires MaySync(g) && Answers(g, w)
    ensures Path(gs, steps) && gs[0] == g && forall s :: s in steps ==> IsWriting(s)
    ensures var g', r := gs[|gs|-1], RecordIn(g.cached);
      && g'.phase.Idle? && g'.cached == g.cached
      && (g'.pending <==> key in PendingAfter({}, key, r, template, override, updated, selected, w))
      && RecordIn(g'.server) == if g.cached == g.server then NextRecord(r, template, override, updated, selected, w) else RecordIn(g.server)
  {
    gs, steps := [g], [];
    var r := RecordIn(g.cached);
    if r.None? {
      if !w.createFails {
        var made := if w.keepsStatus then Record(template, override, updated) else EMPTY_RECORD;
        var g1 := g.(server := Some(Stamped(1, made)), events := g.events + [Stamped(1, made)], phase := Created(made));
        var g2 := g1.(pending := true, phase := Marked(made, 1, true));
        gs, steps := FinishWrite(g2, w.updateFails);
        Prepended(g1, MarkCreated, gs, steps);
        Prepended(g, Create(made), [g1] + gs, [MarkCreated] + steps);
        gs, steps := [g] + ([g1] + gs), [Create(made)] + ([MarkCreated] + steps);
      }
    } else if !LeftAlone(r, template, override, updated, selected) {
      var made := Renewed(r.value, template, override, updated, selected);
      var g1 := g.(pending := true, phase := Marked(made, g.cached.value.version, false));
      gs, steps := FinishWrite(g1, w.updateFails);
      Prepended(g, Mark(made), gs, steps);
      gs, steps := [g] + gs, [Mark(made)] + steps;
    }
  }

  /** Recording the versions of a reconcile that got through, with the run it takes the guard along. */
  method WriteRecord(recorder: Recorder, key: string, updated: map<string, Version>, template: Version, override: Version,
                     stored: Option<Status>, selected: seq<string>, w: ApiWrite, ghost g: Guard)
    returns (now: Option<Status>, ok: bool, wrote: bool, ghost gs: seq<Guard>, ghost steps: seq<Step>)
    requires WellStored(stored) && MeaningOf(stored) == RecordIn(g.cached)
    requires MaySync(g) && Answers(g, w) && key !in recorder.pending
    modifies recorder
    ensures Path(gs, steps) && gs[0] == g && gs[|gs|-1].phase.Idle? && forall s :: s in steps ==> IsWriting(s)
    ensures gs[|gs|-1].pending <==> key in recorder.pending
    ensures gs[|gs|-1].cached == g.cached
    ensures g.cached == g.server ==> RecordIn(gs[|gs|-1].server) == MeaningOf(now)
    ensures g.cached != g.server ==> RecordIn(gs[|gs|-1].server) == RecordIn(g.server)
    ensures forall k :: k != key ==> (k in recorder.pending <==> k in old(recorder.pending))
  {
    gs, steps := WriteTakesSteps(g, key, template, override, updated, selected, w);
    now, ok, wrote := recorder.UpdatePropagatedVersion(key, updated, template, override, stored, selected, w);
  }

  /** The informer handles its next event: an update if it knows the record, and an addition otherwise. */
  method HandleEvent(recorder: Recorder, key: string, known: bool, ghost g: Guard) returns (ghost g': Guard)
    requires g.events != [] && known == g.cached.Some? && (g.pending <==> key in recorder.pending)
    modifies recorder
    ensures Next(g, Deliver, g') && (g'.pending <==> key in recorder.pending)
    ensures forall k :: k != key ==> (k in recorder.pending <==> k in old(recorder.pending))
  {
    g' := Delivered(g);
    if known {
      recorder.OnUpdate(key);
    }
  }

  // ---------- Marks that nothing clears ----------

  /** Over an unbroken watch reconciling can get through again. */
  ghost predicate CanResume(g: Guard) {
    exists gs: seq<Guard>, steps: seq<Step> ::
      Path(gs, steps) && gs[0] == g && (forall s :: s in steps ==> !s.Relist?) && MaySync(gs[|gs|-1])
  }

  /** The write is over and the mark stands, with no event to come that would clear it. */
  predicate Standing(g: Guard) {
    g.phase.Idle? && g.pending && |g.events| <= if g.cached.Some? then 0 else 1
  }

  lemma {:induction false} StandingStays(gs: seq<Guard>, steps: seq<Step>, i: nat)
    requires Path(gs, steps) && i < |gs| && Standing(gs[0]) && forall s :: s in steps ==> !s.Relist?
    ensures Standing(gs[i])
  {
    if i > 0 {
      StandingStays(gs, steps, i - 1);
      assert steps[i-1] in steps;
      assert Next(gs[i-1], steps[i-1], gs[i]);
    }
  }

  lemma EventClears(g: Guard)
    requires g.phase.Idle? && g.pending && !Standing(g)
    ensures CanResume(g)
  {
    var g1 := Delivered(g);
    assert Next(g, Deliver, g1);
    if g.cached.Some? {
      assert Path([g, g1], [Deliver]);
    } else {
      var g2 := Delivered(g1);
      assert Next(g1, Deliver, g2);
      assert Path([g, g1, g2], [Deliver, Deliver]);
    }
  }

  /**
   After a write, whatever its outcome: unless the watch breaks, reconciling is blocked for good exactly
   when there is no event left to handle but perhaps the one that adds the record.
   */
  lemma BlockedIffStanding(g: Guard)
    requires g.phase.Idle? && g.pending
    ensures !CanResume(g) <==> Standing(g)
  {
    if Standing(g) {
      forall gs: seq<Guard>, steps: seq<Step>
        | Path(gs, steps) && gs[0] == g && (forall s :: s in steps ==> !s.Relist?)
        ensures !MaySync(gs[|gs|-1])
      {
        StandingStays(gs, steps, |gs| - 1);
      }
    } else {
      EventClears(g);
    }
  }

  /** Rewriting a record without cluster versions, as it is, leaves such a mark: the server reports no change. */
  lemma UnchangedRecordBlocks(r: Record)
    requires r.versions == map[]
    ensures exists gs: seq<Guard>, steps: seq<Step> ::
      Run(gs, steps) && Mark(r) in steps && (forall s :: s in steps ==> !s.LoseReply? && !s.Relist?)
      && gs[|gs|-1].server.Some? && gs[|gs|-1].cached == gs[|gs|-1].server && gs[|gs|-1].server.value.record == r
      && gs[|gs|-1].phase.Idle? && !Undelivered(gs[|gs|-1]) && !CanResume(gs[|gs|-1])
  {
    var gs, steps, v := QuietRun(r);
    var g := gs[|gs|-1];
    var g1 := g.(pending := true, phase := Marked(r, v, false));
    var g2 := g1.(phase := Applied);
    var g3 := g2.(phase := Idle);
    var more := [Mark(r), ApplySame, Return];
    assert Path([g, g1, g2, g3], more);
    Joined(gs, steps, [g, g1, g2, g3], more);
    assert more[0] == Mark(r) && Mark(r) in steps + more;
    BlockedIffStanding(g3);
  }

  /** So does creating a record on a server that keeps the status it is created with. */
  lemma KeptStatusBlocks(r: Record)
    requires r != EMPTY_RECORD
    ensures exists gs: seq<Guard>, steps: seq<Step> ::
      Run(gs, steps) && Create(r) in steps && (forall s :: s in steps ==> !s.LoseReply? && !s.Relist?)
      && gs[|gs|-1].phase.Idle? && !Undelivered(gs[|gs|-1]) && !CanResume(gs[|gs|-1])
  {
    var a := Stamped(1, r);
    var g1 := Guard(Some(a), None, [a], 0, false, Created(r));
    var g2 := g1.(pending := true, phase := Marked(r, 1, true));
    var g3 := g2.(phase := Applied);
    var g4 := g3.(phase := Idle);
    var gs, steps := [START, g1, g2, g3, g4], [Create(r), MarkCreated, ApplySame, Return];
    assert Next(START, Create(r), g1);
    assert Run(gs, steps);
    assert steps[0] == Create(r);
    BlockedIffStanding(g4);
  }

  // ---------- Both causes of failure occur ----------

  /** The informer still has the record `r0`, while the server has moved on to `r1`. */
  predicate Reads(g: Guard, r0: Record, r1: Record) {
    g.cached.Some? && g.cached.value.record == r0 && g.server.Some? && g.server.value.record == r1
  }

  /** Idle, with nothing to report, at the given version of the record. */
  function AllAgree(v: nat, r: Record): Guard {
    Guard(Some(Stamped(v, r)), Some(Stamped(v, r)), [], v, false, Idle)
  }

  /** The server clears the status of the created record, and is given an empty one. */
  lemma ClearedRun() returns (gs: seq<Guard>, steps: seq<Step>)
    ensures Run(gs, steps) && (forall s :: s in steps ==> !s.LoseReply? && !s.Relist?)
    ensures gs[|gs|-1] == AllAgree(2, EMPTY_RECORD)
  {
    var r := EMPTY_RECORD;
    var a, b := Stamped(1, r), Stamped(2, r);
    var g1 := Guard(Some(a), None, [a], 0, false, Created(r));
    var g2 := g1.(pending := true, phase := Marked(r, 1, true));
    var g3 := Guard(Some(b), None, [a, b], 2, true, Applied);
    var g4 := g3.(phase := Idle);
    var g5 := Guard(Some(b), Some(a), [b], 2, true, Idle);
    gs, steps := [START, g1, g2, g3, g4, g5, AllAgree(2, r)], [Create(r), MarkCreated, Apply, Return, Deliver, Deliver];
    assert Next(START, Create(r), g1);
    assert Next(g2, Apply, g3);
    assert Next(g4, Deliver, g5) by { assert g4.events[1..] == [b]; }
    assert Next(g5, Deliver, gs[6]);
  }

  /** A record that has been created, updated and reported: the worker is idle and everything agrees. */
  lemma QuietRun(r: Record) returns (gs: seq<Guard>, steps: seq<Step>, v: nat)
    ensures Run(gs, steps) && (forall s :: s in steps ==> !s.LoseReply? && !s.Relist?)
    ensures gs[|gs|-1] == AllAgree(v, r)
  {
    gs, steps := ClearedRun();
    v := 2;
    if r != EMPTY_RECORD {
      var g, a, b := gs[|gs|-1], Stamped(2, EMPTY_RECORD), Stamped(3, r);
      var g1 := g.(pending := true, phase := Marked(r, 2, false));
      var g2 := Guard(Some(b), Some(a), [b], 3, true, Applied);
      var g3 := g2.(phase := Idle);
      assert Path([g, g1, g2, g3, AllAgree(3, r)], [Mark(r), Apply, Return, Deliver]);
      Joined(gs, steps, [g, g1, g2, g3, AllAgree(3, r)], [Mark(r), Apply, Return, Deliver]);
      gs, steps, v := gs + [g, g1, g2, g3, AllAgree(3, r)][1..], steps + [Mark(r), Apply, Return, Deliver], 3;
    }
  }

  lemma Joined(gs: seq<Guard>, steps: seq<Step>, hs: seq<Guard>, more: seq<Step>)
    requires Run(gs, steps) && Path(hs, more) && hs[0] == gs[|gs|-1]
    ensures Run(gs + hs[1..], steps + more)
    ensures (gs + hs[1..])[|gs + hs[1..]|-1] == hs[|hs|-1]
  {
    var gs', steps' := gs + hs[1..], steps + more;
    forall i | 0 <= i < |steps'| ensures Next(gs'[i], steps'[i], gs'[i+1]) {
      if i < |steps| {
        assert Next(gs[i], steps[i], gs[i+1]);
      } else {
        var k := i - |steps|;
        assert Next(hs[k], more[k], hs[k+1]);
        assert gs'[i] == hs[k];
      }
    }
  }

  /** A lost reply defeats the guard: the next reconcile acts on a record the server has replaced. */
  lemma LostReplyDefeatsGuard(r0: Record, r1: Record)
    requires r0 != r1
    ensures exists gs: seq<Guard>, steps: seq<Step> ::
      Run(gs, steps) && LoseReply in steps && (forall s :: s in steps ==> !s.Relist?)
      && Breach(gs[|gs|-1]) && Reads(gs[|gs|-1], r0, r1)
  {
    var gs, steps, v := QuietRun(r0);
    var a, b := Stamped(v, r0), Stamped(v + 1, r1);
    var g1 := Guard(Some(a), Some(a), [], v, true, Marked(r1, v, false));
    var g2 := Guard(Some(b), Some(a), [b], v + 1, true, Applied);
    var g3 := g2.(phase := Lost);
    var g4 := g3.(phase := Idle, pending := false);
    var more := [Mark(r1), Apply, LoseReply, Return];
    assert Path([gs[|gs|-1], g1, g2, g3, g4], more);
    Joined(gs, steps, [gs[|gs|-1], g1, g2, g3, g4], more);
    assert more[2] == LoseReply && LoseReply in steps + more;
  }

  /** So does a relist: the mark is cleared by the record as it was before the update. */
  lemma RelistDefeatsGuard(r0: Record, r1: Record)
    requires r0 != r1
    ensures exists gs: seq<Guard>, steps: seq<Step> ::
      Run(gs, steps) && Relist(0, 0) in steps && (forall s :: s in steps ==> !s.LoseReply?)
      && Breach(gs[|gs|-1]) && Reads(gs[|gs|-1], r0, r1)
  {
    var gs, steps, v := QuietRun(r0);
    var a, b := Stamped(v, r0), Stamped(v + 1, r1);
    var g1 := Guard(Some(a), Some(a), [a], v, false, Idle);
    var g2 := Guard(Some(a), Some(a), [a], v, true, Marked(r1, v, false));
    var g3 := Guard(Some(a), Some(a), [], v, false, Marked(r1, v, false));
    var g4 := Guard(Some(b), Some(a), [b], v + 1, false, Applied);
    var g5 := g4.(phase := Idle);
    var more := [Relist(0, 0), Mark(r1), Deliver, Apply, Return];
    assert Path([gs[|gs|-1], g1, g2, g3, g4, g5], more);
    Joined(gs, steps, [gs[|gs|-1], g1, g2, g3, g4, g5], more);
    assert more[0] == Relist(0, 0) && Relist(0, 0) in steps + more;
  }
}
