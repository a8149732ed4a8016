/** The bounded per-process event store (src/forensics/correlator.rs).

    `Ingest` is the store's transition function and `Run` folds it over an event stream; the class
    `Correlator` is the in-place implementation.  The lemmas relate a report to the plain event
    stream, with no store in the statement. */
module Correlator {
  import opened Prelude
  import opened Classifier

  datatype Config = Config(maxProcesses: nat, maxEvents: nat)

  /** `Correlator::new` panics on a zero bound. */
  predicate ValidConfig(cfg: Config) {
    cfg.maxProcesses > 0 && cfg.maxEvents > 0
  }

  datatype Timeline = Timeline(events: seq<KernelEvent>, lossEpochAtCreation: nat)

  datatype Store = Store(
    timelines: map<ProcessIdentity, Timeline>, insertionOrder: seq<ProcessIdentity>, lossEpoch: nat)

  datatype Outcome = Accepted | Death(report: DeathReport) | Ignored

  const EMPTY := Store(map[], [], 0)

  predicate CountsAsLoss(e: KernelEvent) {
    e.TelemetryLoss? && e.droppedRecords != 0
  }

  /** Drops entries off the front of the queue until one of them frees a timeline. */
  function Evict(timelines: map<ProcessIdentity, Timeline>, order: seq<ProcessIdentity>)
      : (map<ProcessIdentity, Timeline>, seq<ProcessIdentity>)
    decreases |order|
  {
    if order == [] then (timelines, order)
    else if order[0] in timelines then (timelines - {order[0]}, order[1..])
    else Evict(timelines, order[1..])
  }

  function EnsureCapacity(cfg: Config, s: Store, id: ProcessIdentity): Store {
    if id in s.timelines || |s.timelines| < cfg.maxProcesses then s
    else
      var (timelines, order) := Evict(s.timelines, s.insertionOrder);
      s.(timelines := timelines, insertionOrder := order)
  }

  /** The timeline of `id` with one more event, dropping the oldest when it is full. */
  function Extend(cfg: Config, t: Timeline, e: KernelEvent): Timeline {
    var kept := if |t.events| == cfg.maxEvents && t.events != [] then t.events[1..] else t.events;
    t.(events := kept + [e])
  }

  /** The store after recording an event of `id`, before any report removes the timeline. */
  function Record(cfg: Config, s: Store, id: ProcessIdentity, e: KernelEvent): Store {
    var roomy := EnsureCapacity(cfg, s, id);
    var known := id in roomy.timelines;
    var t := if known then roomy.timelines[id] else Timeline([], roomy.lossEpoch);
    roomy.(
      timelines := roomy.timelines[id := Extend(cfg, t, e)],
      insertionOrder := if known then roomy.insertionOrder else roomy.insertionOrder + [id])
  }

  function Ingest(cfg: Config, s: Store, e: KernelEvent): (Store, Outcome) {
    var subject := Subject(e);
    if subject.None? then
      (if CountsAsLoss(e) then s.(lossEpoch := (s.lossEpoch + 1) % TWO_64) else s, Accepted)
    else
      var id := subject.value;
      var recorded := Record(cfg, s, id, e);
      if !IsLeaderExit(e) then (recorded, Accepted) else
      var t := recorded.timelines[id];
      var report := Classify(id, t.events, t.lossEpochAtCreation != recorded.lossEpoch);
      (recorded.(timelines := recorded.timelines - {id}), if report.Some? then Death(report.value) else Ignored)
  }

  /** The store after a whole stream. */
  function Run(cfg: Config, stream: seq<KernelEvent>): Store {
    if stream == [] then EMPTY
    else Ingest(cfg, Run(cfg, stream[..|stream| - 1]), stream[|stream| - 1]).0
  }

  // ---- Bounds ---------------------------------------------------------------------------------------

  ghost predicate Bounded(cfg: Config, s: Store) {
    && |s.timelines| <= cfg.maxProcesses
    && s.lossEpoch < TWO_64
    && forall id | id in s.timelines ::
         && id in s.insertionOrder
         && 0 < |s.timelines[id].events| <= cfg.maxEvents
         && s.timelines[id].lossEpochAtCreation < TWO_64
         && forall e | e in s.timelines[id].events :: Subject(e) == Some(id)
  }

  /** As every live process is queued, the eviction loop frees exactly one timeline. */
  lemma {:induction false} EvictFrees(timelines: map<ProcessIdentity, Timeline>, order: seq<ProcessIdentity>)
    requires timelines != map[] && forall id | id in timelines :: id in order
    ensures var (timelines', order') := Evict(timelines, order);
            |timelines'| == |timelines| - 1
            && timelines'.Keys <= timelines.Keys
            && forall id | id in timelines' :: id in order' && timelines'[id] == timelines[id]
    decreases |order|
  {
    var witness_ :| witness_ in timelines;
    if order[0] in timelines {
      assert (timelines - {order[0]}).Keys == timelines.Keys - {order[0]};
    } else {
      EvictFrees(timelines, order[1..]);
    }
  }

  lemma CapacityKept(cfg: Config, s: Store, id: ProcessIdentity)
    requires ValidConfig(cfg) && Bounded(cfg, s)
    ensures var s' := EnsureCapacity(cfg, s, id);
            Bounded(cfg, s') && s'.timelines.Keys <= s.timelines.Keys && s'.lossEpoch == s.lossEpoch
            && (forall k | k in s'.timelines :: s'.timelines[k] == s.timelines[k])
            && (id !in s'.timelines ==> |s'.timelines| < cfg.maxProcesses)
            && (id in s.timelines ==> s' == s)
  {
    if id !in s.timelines && |s.timelines| >= cfg.maxProcesses {
      assert s.timelines != map[];
      EvictFrees(s.timelines, s.insertionOrder);
    }
  }

  lemma ExtendOwn(cfg: Config, t: Timeline, id: ProcessIdentity, e: KernelEvent)
    requires ValidConfig(cfg) && Subject(e) == Some(id)
    requires |t.events| <= cfg.maxEvents && forall x | x in t.events :: Subject(x) == Some(id)
    ensures var events := Extend(cfg, t, e).events;
            0 < |events| <= cfg.maxEvents && forall x | x in events :: Subject(x) == Some(id)
    ensures Extend(cfg, t, e).lossEpochAtCreation == t.lossEpochAtCreation
  {
  }

  lemma RecordBounded(cfg: Config, s: Store, id: ProcessIdentity, e: KernelEvent)
    requires ValidConfig(cfg) && Bounded(cfg, s) && Subject(e) == Some(id)
    ensures Bounded(cfg, Record(cfg, s, id, e))
  {
    hide EnsureCapacity, Extend;
    var roomy := EnsureCapacity(cfg, s, id);
    CapacityKept(cfg, s, id);
    var s' := Record(cfg, s, id, e);
    assert s'.timelines.Keys == roomy.timelines.Keys + {id};
    var t := if id in roomy.timelines then roomy.timelines[id] else Timeline([], roomy.lossEpoch);
    ExtendOwn(cfg, t, id, e);
    forall k | k in s'.timelines
      ensures k in s'.insertionOrder && (k == id || s'.timelines[k] == roomy.timelines[k])
    {
      if k in roomy.timelines {
        assert k in roomy.insertionOrder;
      }
    }
  }

  /** Every event leaves the store within its bounds, and the death of a process is never ignored. */
  lemma IngestBounded(cfg: Config, s: Store, e: KernelEvent)
    requires ValidConfig(cfg) && Bounded(cfg, s)
    ensures Bounded(cfg, Ingest(cfg, s, e).0)
    ensures if IsLeaderExit(e) then Ingest(cfg, s, e).1.Death? else Ingest(cfg, s, e).1 == Accepted
  {
    hide Record, Classify;
    if Subject(e).Some? {
      var id := Subject(e).value;
      RecordBounded(cfg, s, id, e);
      var recorded := Record(cfg, s, id, e);
      RecordLast(cfg, s, id, e);
      if IsLeaderExit(e) {
        assert IsDeathOf(id, e) && e in recorded.timelines[id].events;
        assert (recorded.timelines - {id}).Keys == recorded.timelines.Keys - {id};
      }
    }
  }

  lemma RecordLast(cfg: Config, s: Store, id: ProcessIdentity, e: KernelEvent)
    ensures var s' := Record(cfg, s, id, e);
            id in s'.timelines && e in s'.timelines[id].events && s'.lossEpoch == s.lossEpoch
  {
    var events := Record(cfg, s, id, e).timelines[id].events;
    assert events[|events| - 1] == e;
  }

  /** For every event stream: at most `maxProcesses` timelines, each holding at most `maxEvents`
      events of its own process; and every leader exit is answered by a report. */
  lemma {:induction false} RunBounded(cfg: Config, stream: seq<KernelEvent>)
    requires ValidConfig(cfg)
    ensures Bounded(cfg, Run(cfg, stream))
    ensures stream != [] && IsLeaderExit(stream[|stream| - 1]) ==>
              Ingest(cfg, Run(cfg, stream[..|stream| - 1]), stream[|stream| - 1]).1.Death?
  {
    if stream != [] {
      var front := stream[..|stream| - 1];
      RunBounded(cfg, front);
      IngestBounded(cfg, Run(cfg, front), stream[|stream| - 1]);
    }
  }

  /** The eviction queue, unlike the timelines, is not bounded: deaths leave their entries behind. */
  lemma {:induction false} QueueUnbounded(cfg: Config, e: KernelEvent, n: nat) returns (stream: seq<KernelEvent>)
    requires ValidConfig(cfg) && IsLeaderExit(e)
    ensures |Run(cfg, stream).insertionOrder| == n && Run(cfg, stream).timelines == map[]
  {
    if n == 0 {
      stream := [];
    } else {
      var front := QueueUnbounded(cfg, e, n - 1);
      stream := front + [e];
      assert stream[..|stream| - 1] == front;
    }
  }

  /** The event starts a timeline. */
  predicate Starts(s: Store, e: KernelEvent) {
    Subject(e).Some? && Subject(e).value !in s.timelines
  }

  function Opened(s: Store, e: KernelEvent): seq<ProcessIdentity> {
    if Starts(s, e) then [Subject(e).value] else []
  }

  /** The event makes the store evict. */
  predicate Evicts(cfg: Config, s: Store, e: KernelEvent) {
    Starts(s, e) && |s.timelines| >= cfg.maxProcesses
  }

  /** The entries in front of the first one that still has a timeline. */
  function Stale(timelines: map<ProcessIdentity, Timeline>, order: seq<ProcessIdentity>): nat {
    if order == [] || order[0] in timelines then 0 else 1 + Stale(timelines, order[1..])
  }

  /** An eviction drops the stale entries in front and the first live one. */
  lemma {:induction false} EvictDrops(timelines: map<ProcessIdentity, Timeline>, order: seq<ProcessIdentity>)
    requires exists id :: id in timelines && id in order
    ensures Stale(timelines, order) < |order|
    ensures Evict(timelines, order)
            == (timelines - {order[Stale(timelines, order)]}, order[Stale(timelines, order) + 1..])
  {
    if order[0] !in timelines {
      EvictDrops(timelines, order[1..]);
    }
  }

  /** The processes whose events started a timeline, in order and with repetitions. */
  function Started(cfg: Config, stream: seq<KernelEvent>): seq<ProcessIdentity> {
    if stream == [] then [] else
    var front, e := stream[..|stream| - 1], stream[|stream| - 1];
    Started(cfg, front) + Opened(Run(cfg, front), e)
  }

  /** How often the stream made the store evict, and how many stale entries went along. */
  function Evictions(cfg: Config, stream: seq<KernelEvent>): nat {
    if stream == [] then 0 else
    var front, e := stream[..|stream| - 1], stream[|stream| - 1];
    Evictions(cfg, front) + if Evicts(cfg, Run(cfg, front), e) then 1 else 0
  }

  function StaleDropped(cfg: Config, stream: seq<KernelEvent>): nat {
    if stream == [] then 0 else
    var front, e := stream[..|stream| - 1], stream[|stream| - 1];
    var s := Run(cfg, front);
    StaleDropped(cfg, front) + if Evicts(cfg, s, e) then Stale(s.timelines, s.insertionOrder) else 0
  }

  function Exits(stream: seq<KernelEvent>): nat {
    if stream == [] then 0
    else Exits(stream[..|stream| - 1]) + if IsLeaderExit(stream[|stream| - 1]) then 1 else 0
  }

  /** How many entries the event takes off the queue. */
  function DroppedBy(cfg: Config, s: Store, e: KernelEvent): nat {
    if Evicts(cfg, s, e) then 1 + Stale(s.timelines, s.insertionOrder) else 0
  }

  lemma RoomQueue(cfg: Config, s: Store, e: KernelEvent)
    requires ValidConfig(cfg) && Bounded(cfg, s) && Subject(e).Some?
    ensures var roomy := EnsureCapacity(cfg, s, Subject(e).value);
            && DroppedBy(cfg, s, e) <= |s.insertionOrder|
            && roomy.insertionOrder == s.insertionOrder[DroppedBy(cfg, s, e)..]
            && |roomy.timelines| == |s.timelines| - (if Evicts(cfg, s, e) then 1 else 0)
            && (Subject(e).value in roomy.timelines <==> Subject(e).value in s.timelines)
  {
    hide Evict, Stale;
    if Evicts(cfg, s, e) {
      assert s.timelines != map[];
      EvictFrees(s.timelines, s.insertionOrder);
      var id :| id in s.timelines;
      assert id in s.timelines && id in s.insertionOrder;
      EvictDrops(s.timelines, s.insertionOrder);
    }
  }

  /** What one event does to the queue and to the number of timelines. */
  lemma QueueStep(cfg: Config, s: Store, e: KernelEvent)
    requires ValidConfig(cfg) && Bounded(cfg, s)
    ensures var s' := Ingest(cfg, s, e).0;
            && DroppedBy(cfg, s, e) <= |s.insertionOrder|
            && s'.insertionOrder == s.insertionOrder[DroppedBy(cfg, s, e)..] + Opened(s, e)
            && |s'.timelines| == |s.timelines| + |Opened(s, e)|
                                 - (if Evicts(cfg, s, e) then 1 else 0) - (if IsLeaderExit(e) then 1 else 0)
  {
    hide Classify, Extend, EnsureCapacity, Stale, Bounded;
    if Subject(e).Some? {
      RoomQueue(cfg, s, e);
      var id := Subject(e).value;
      var roomy, recorded := EnsureCapacity(cfg, s, id), Record(cfg, s, id, e);
      assert recorded.timelines.Keys == roomy.timelines.Keys + {id};
      assert (recorded.timelines - {id}).Keys == recorded.timelines.Keys - {id};
    }
  }

  /** The queue grows, and then by one entry, exactly when an event starts a timeline while there is
      room for it. */
  lemma QueueGrowsExactly(cfg: Config, s: Store, e: KernelEvent)
    requires ValidConfig(cfg) && Bounded(cfg, s)
    ensures var s' := Ingest(cfg, s, e).0;
            && (|s'.insertionOrder| > |s.insertionOrder| <==> Starts(s, e) && |s.timelines| < cfg.maxProcesses)
            && |s'.insertionOrder| <= |s.insertionOrder| + 1
  {
    hide Ingest;
    QueueStep(cfg, s, e);
  }

  lemma DropMore<T>(all: seq<T>, i: nat, j: nat, more: seq<T>)
    requires i + j <= |all|
    ensures all[i..][j..] + more == (all + more)[i + j..]
  {
  }

  /** For every stream: the queue is what was started without what evictions dropped from the front.
      It is longer than the number of timelines by one entry for every leader exit, less the stale
      entries dropped; the timelines are what was started, less evictions and leader exits. */
  lemma {:induction false} QueueExactly(cfg: Config, stream: seq<KernelEvent>)
    requires ValidConfig(cfg)
    ensures var s, started := Run(cfg, stream), Started(cfg, stream);
            var dropped := Evictions(cfg, stream) + StaleDropped(cfg, stream);
            && dropped <= |started| && s.insertionOrder == started[dropped..]
            && |s.timelines| == |started| - Evictions(cfg, stream) - Exits(stream)
            && |s.insertionOrder| == |s.timelines| + Exits(stream) - StaleDropped(cfg, stream)
  {
    hide Ingest, Opened, Evicts, Stale, IsLeaderExit, Bounded;
    if stream != [] {
      var front, e := stream[..|stream| - 1], stream[|stream| - 1];
      QueueExactly(cfg, front);
      RunBounded(cfg, front);
      var s := Run(cfg, front);
      QueueStep(cfg, s, e);
      DropMore(Started(cfg, front), Evictions(cfg, front) + StaleDropped(cfg, front), DroppedBy(cfg, s, e),
               Opened(s, e));
    }
  }

  // ---- Agreement with the plain stream ----------------------------------------------------------------

  function Losses(stream: seq<KernelEvent>): nat {
    if stream == [] then 0
    else
      var last := stream[|stream| - 1];
      Losses(stream[..|stream| - 1]) + if last.TelemetryLoss? && last.droppedRecords > 0 then 1 else 0
  }

  function LastN(events: seq<KernelEvent>, n: nat): seq<KernelEvent> {
    if |events| <= n then events else events[|events| - n..]
  }

  /** `id`'s first event is `stream[k]`, and its timeline has survived every event since. */
  ghost predicate Unbroken(cfg: Config, stream: seq<KernelEvent>, id: ProcessIdentity, k: nat) {
    && k <= |stream|
    && OwnEvents(stream[..k], id) == []
    && (k < |stream| ==> Subject(stream[k]) == Some(id))
    && forall j | k < j <= |stream| :: id in Run(cfg, stream[..j]).timelines
  }

  lemma {:induction false} EpochCountsLosses(cfg: Config, stream: seq<KernelEvent>)
    requires ValidConfig(cfg)
    ensures Run(cfg, stream).lossEpoch == Losses(stream) % TWO_64
  {
    hide Record, Classify;
    if stream != [] {
      var front, e := stream[..|stream| - 1], stream[|stream| - 1];
      EpochCountsLosses(cfg, front);
      RunBounded(cfg, front);
      if Subject(e).Some? {
        RecordLast(cfg, Run(cfg, front), Subject(e).value, e);
      }
    }
  }

  /** Recording an event of another process, or a loss, keeps a surviving timeline as it was. */
  lemma OthersUntouched(cfg: Config, s: Store, e: KernelEvent, id: ProcessIdentity)
    requires ValidConfig(cfg) && Bounded(cfg, s)
    requires Subject(e) != Some(id) && id in Ingest(cfg, s, e).0.timelines
    ensures id in s.timelines && Ingest(cfg, s, e).0.timelines[id] == s.timelines[id]
  {
    hide EnsureCapacity, Classify;
    if Subject(e).Some? {
      CapacityKept(cfg, s, Subject(e).value);
    }
  }

  /** A process that is not tracked and has no events in the stream stays untracked. */
  lemma {:induction false} UntrackedWithoutEvents(cfg: Config, stream: seq<KernelEvent>, id: ProcessIdentity)
    requires ValidConfig(cfg) && OwnEvents(stream, id) == []
    ensures id !in Run(cfg, stream).timelines
  {
    if stream != [] {
      var front, e := stream[..|stream| - 1], stream[|stream| - 1];
      UntrackedWithoutEvents(cfg, front, id);
      RunBounded(cfg, front);
      if id in Run(cfg, stream).timelines {
        OthersUntouched(cfg, Run(cfg, front), e, id);
      }
    }
  }

  /** An unbroken timeline holds the most recent events of its process and the loss count at its
      first event. */
  lemma {:induction false} TimelineIsRecentEvents(cfg: Config, stream: seq<KernelEvent>, id: ProcessIdentity, k: nat)
    requires ValidConfig(cfg) && Unbroken(cfg, stream, id, k) && k < |stream|
    ensures id in Run(cfg, stream).timelines
    ensures Run(cfg, stream).timelines[id]
            == Timeline(LastN(OwnEvents(stream, id), cfg.maxEvents), Losses(stream[..k]) % TWO_64)
    decreases |stream|
  {
    var front, e := stream[..|stream| - 1], stream[|stream| - 1];
    var s := Run(cfg, front);
    assert stream[..|stream|] == stream;
    RunBounded(cfg, front);
    if k == |stream| - 1 {
      FirstEvent(cfg, front, e, id);
    } else {
      forall j | k < j <= |front|
        ensures id in Run(cfg, front[..j]).timelines
      {
        assert front[..j] == stream[..j];
      }
      assert front[..k] == stream[..k];
      TimelineIsRecentEvents(cfg, front, id, k);
      if Subject(e) == Some(id) {
        NextEvent(cfg, s, e, id, OwnEvents(front, id));
      } else {
        OthersUntouched(cfg, s, e, id);
        assert OwnEvents(front, id) + [] == OwnEvents(front, id);
      }
    }
  }

  lemma NewTimeline(cfg: Config, s: Store, id: ProcessIdentity, e: KernelEvent)
    requires ValidConfig(cfg) && Bounded(cfg, s) && id !in s.timelines
    ensures Record(cfg, s, id, e).timelines[id] == Timeline([e], s.lossEpoch)
  {
    hide EnsureCapacity;
    CapacityKept(cfg, s, id);
    assert [] + [e] == [e];
  }

  lemma FirstEvent(cfg: Config, front: seq<KernelEvent>, e: KernelEvent, id: ProcessIdentity)
    requires ValidConfig(cfg) && OwnEvents(front, id) == [] && Subject(e) == Some(id)
    ensures Record(cfg, Run(cfg, front), id, e).timelines[id] == Timeline([e], Losses(front) % TWO_64)
    ensures OwnEvents(front + [e], id) == [e]
  {
    hide Record, Run, Losses;
    UntrackedWithoutEvents(cfg, front, id);
    RunBounded(cfg, front);
    NewTimeline(cfg, Run(cfg, front), id, e);
    EpochCountsLosses(cfg, front);
    assert (front + [e])[..|front|] == front;
    assert [] + [e] == [e];
  }

  lemma NextEvent(cfg: Config, s: Store, e: KernelEvent, id: ProcessIdentity, own: seq<KernelEvent>)
    requires ValidConfig(cfg) && id in s.timelines && Subject(e) == Some(id)
    requires s.timelines[id].events == LastN(own, cfg.maxEvents)
    ensures Record(cfg, s, id, e).timelines[id]
            == Timeline(LastN(own + [e], cfg.maxEvents), s.timelines[id].lossEpochAtCreation)
  {
    if |own| >= cfg.maxEvents {
      assert LastN(own, cfg.maxEvents)[1..] + [e] == LastN(own + [e], cfg.maxEvents);
    }
  }

  /** A death report is the verdict on the most recent events of that process in the whole stream. */
  lemma DeathReportOfRecent(cfg: Config, stream: seq<KernelEvent>, e: KernelEvent, id: ProcessIdentity, k: nat)
    requires ValidConfig(cfg) && IsDeathOf(id, e) && Unbroken(cfg, stream, id, k)
    ensures var own := LastN(OwnEvents(stream + [e], id), cfg.maxEvents);
            var report := Classify(id, own, Losses(stream[k..]) % TWO_64 != 0);
            report.Some? && Ingest(cfg, Run(cfg, stream), e).1 == Death(report.value)
  {
    hide Record, Classify, Evict;
    var s := Run(cfg, stream);
    RunBounded(cfg, stream);
    EpochCountsLosses(cfg, stream);
    assert (stream + [e])[..|stream|] == stream;
    RecordLast(cfg, s, id, e);
    if k == |stream| {
      assert stream[..k] == stream;
      FirstEvent(cfg, stream, e, id);
    } else {
      TimelineIsRecentEvents(cfg, stream, id, k);
      NextEvent(cfg, s, e, id, OwnEvents(stream, id));
    }
    EpochsDiffer(stream, k);
    IngestBounded(cfg, s, e);
  }

  lemma {:induction false} LossesSplit(stream: seq<KernelEvent>, k: nat)
    requires k <= |stream|
    ensures Losses(stream) == Losses(stream[..k]) + Losses(stream[k..])
    ensures Losses(stream[k..]) > 0 <==> exists i | k <= i < |stream| :: CountsAsLoss(stream[i])
    decreases |stream|
  {
    if k == |stream| {
      assert stream[..k] == stream;
    } else {
      var front := stream[..|stream| - 1];
      LossesSplit(front, k);
      assert front[..k] == stream[..k] && stream[k..][..|stream| - k - 1] == front[k..];
      assert forall i | k <= i < |front| :: front[i] == stream[i];
    }
  }

  /** The wrapping epochs differ exactly when the losses since then are not a multiple of 2^64. */
  lemma EpochsDiffer(stream: seq<KernelEvent>, k: nat)
    requires k <= |stream|
    ensures Losses(stream) % TWO_64 != Losses(stream[..k]) % TWO_64 <==> Losses(stream[k..]) % TWO_64 != 0
  {
    hide Losses;
    LossesSplit(stream, k);
    WrappedShift(Losses(stream[..k]), Losses(stream[k..]));
  }

  lemma WrappedShift(a: nat, b: nat)
    ensures (a + b) % TWO_64 != a % TWO_64 <==> b % TWO_64 != 0
  {
    var qa, qb, qs := a / TWO_64, b / TWO_64, (a + b) / TWO_64;
    assert a == qa * TWO_64 + a % TWO_64 && b == qb * TWO_64 + b % TWO_64;
    assert a + b == qs * TWO_64 + (a + b) % TWO_64;
  }

  /** With no more events than a timeline holds, a report is the verdict on the whole interleaved
      stream, and it admits incomplete evidence exactly when something was lost after the first
      event of the process (fewer than 2^64 times). */
  lemma DeathReportOfStream(cfg: Config, stream: seq<KernelEvent>, e: KernelEvent, id: ProcessIdentity, k: nat)
    requires ValidConfig(cfg) && IsDeathOf(id, e) && Unbroken(cfg, stream, id, k)
    requires |OwnEvents(stream + [e], id)| <= cfg.maxEvents
    requires Losses(stream[k..]) < TWO_64
    ensures var report := Classify(id, stream + [e], exists i | k <= i < |stream| :: CountsAsLoss(stream[i]));
            report.Some? && Ingest(cfg, Run(cfg, stream), e).1 == Death(report.value)
  {
    hide Ingest, Run, Classify;
    DeathReportOfRecent(cfg, stream, e, id, k);
    LossesSplit(stream, k);
    ClassifyOwn(id, stream + [e], Losses(stream[k..]) % TWO_64 != 0);
  }

  // ---- A condition on the stream alone ------------------------------------------------------------------

  function Subjects(stream: seq<KernelEvent>): set<ProcessIdentity> {
    set e | e in stream && Subject(e).Some? :: Subject(e).value
  }

  lemma {:induction false} TimelinesAreSubjects(cfg: Config, stream: seq<KernelEvent>)
    requires ValidConfig(cfg)
    ensures Run(cfg, stream).timelines.Keys <= Subjects(stream)
  {
    if stream != [] {
      var front, e := stream[..|stream| - 1], stream[|stream| - 1];
      TimelinesAreSubjects(cfg, front);
      RunBounded(cfg, front);
      if Subject(e).Some? {
        CapacityKept(cfg, Run(cfg, front), Subject(e).value);
      }
      assert Subjects(front) <= Subjects(stream);
      assert Subject(e).Some? ==> Subject(e).value in Subjects(stream) by { assert e in stream; }
    }
  }

  /** While a stream names no more processes than the store can track, nothing is evicted. */
  lemma NoEvictionYet(cfg: Config, stream: seq<KernelEvent>, n: nat, id: ProcessIdentity)
    requires ValidConfig(cfg) && n < |stream| && |Subjects(stream)| <= cfg.maxProcesses
    requires id in Run(cfg, stream[..n]).timelines && !IsDeathOf(id, stream[n])
    ensures id in Run(cfg, stream[..n + 1]).timelines
  {
    var s, e := Run(cfg, stream[..n]), stream[n];
    assert stream[..n + 1][..n] == stream[..n];
    if Subject(e).Some? && Subject(e).value !in s.timelines {
      TimelinesAreSubjects(cfg, stream[..n]);
      assert Subject(e).value in Subjects(stream) by { assert e in stream; }
      SubsetSize(s.timelines.Keys, Subjects(stream) - {Subject(e).value});
    }
  }

  lemma {:induction false} FirstOwnEvent(stream: seq<KernelEvent>, id: ProcessIdentity) returns (k: nat)
    ensures k <= |stream| && OwnEvents(stream[..k], id) == []
    ensures k < |stream| ==> Subject(stream[k]) == Some(id)
  {
    k := 0;
    while k < |stream| && Subject(stream[k]) != Some(id)
      invariant k <= |stream| && OwnEvents(stream[..k], id) == []
    {
      assert stream[..k + 1][..k] == stream[..k];
      k := k + 1;
    }
  }

  /** So a first death in a stream of at most `maxProcesses` processes finds its timeline unbroken. */
  lemma {:induction false} StaysTracked(cfg: Config, stream: seq<KernelEvent>, id: ProcessIdentity, k: nat, j: nat)
    requires ValidConfig(cfg) && |Subjects(stream)| <= cfg.maxProcesses
    requires forall e | e in stream :: !IsDeathOf(id, e)
    requires k < j <= |stream| && Subject(stream[k]) == Some(id)
    ensures id in Run(cfg, stream[..j]).timelines
    decreases j
  {
    hide Record, Classify, Subjects;
    if j == k + 1 {
      RunBounded(cfg, stream[..k]);
      assert stream[..k + 1][..k] == stream[..k];
      assert stream[k] in stream && !IsDeathOf(id, stream[k]);
      RecordLast(cfg, Run(cfg, stream[..k]), id, stream[k]);
    } else {
      StaysTracked(cfg, stream, id, k, j - 1);
      assert stream[j - 1] in stream;
      NoEvictionYet(cfg, stream, j - 1, id);
    }
  }

  lemma FewProcessesUnbroken(cfg: Config, stream: seq<KernelEvent>, id: ProcessIdentity) returns (k: nat)
    requires ValidConfig(cfg) && |Subjects(stream)| <= cfg.maxProcesses
    requires forall e | e in stream :: !IsDeathOf(id, e)
    ensures Unbroken(cfg, stream, id, k)
  {
    hide Run, Subjects;
    k := FirstOwnEvent(stream, id);
    forall j | k < j <= |stream|
      ensures id in Run(cfg, stream[..j]).timelines
    {
      StaysTracked(cfg, stream, id, k, j);
    }
  }

  /** Something was lost after the first event of `id`. */
  ghost predicate LossAfterFirstEvent(stream: seq<KernelEvent>, id: ProcessIdentity) {
    exists k, i | 0 <= k < i < |stream| :: Subject(stream[k]) == Some(id) && CountsAsLoss(stream[i])
  }

  /** A condition readable off the input: in a stream of at most `maxProcesses` processes, the first
      death of a process with at most `maxEvents` events is judged on the whole stream. */
  lemma FirstDeathOfFewProcesses(cfg: Config, stream: seq<KernelEvent>, e: KernelEvent, id: ProcessIdentity)
    requires ValidConfig(cfg) && IsDeathOf(id, e) && |Subjects(stream)| <= cfg.maxProcesses
    requires forall x | x in stream :: !IsDeathOf(id, x)
    requires |OwnEvents(stream + [e], id)| <= cfg.maxEvents && Losses(stream) < TWO_64
    ensures var report := Classify(id, stream + [e], LossAfterFirstEvent(stream, id));
            report.Some? && Ingest(cfg, Run(cfg, stream), e).1 == Death(report.value)
  {
    hide Ingest, Run, Classify, Subjects;
    var k := FewProcessesUnbroken(cfg, stream, id);
    LossesSplit(stream, k);
    DeathReportOfStream(cfg, stream, e, id, k);
    if i :| k <= i < |stream| && CountsAsLoss(stream[i]) {
      assert Subject(stream[k]) == Some(id) && k < i;
    }
    if j, i :| 0 <= j < i < |stream| && Subject(stream[j]) == Some(id) && CountsAsLoss(stream[i]) {
      NoOwnBefore(stream, id, k, j);
    }
  }

  lemma {:induction false} NoOwnBefore(stream: seq<KernelEvent>, id: ProcessIdentity, k: nat, j: nat)
    requires k <= |stream| && OwnEvents(stream[..k], id) == [] && j < |stream| && Subject(stream[j]) == Some(id)
    ensures k <= j
    decreases k
  {
    if j < k {
      assert stream[..k][..k - 1] == stream[..k - 1] && stream[..k][k - 1] == stream[k - 1];
      NoOwnBefore(stream, id, k - 1, j);
    }
  }

  // ---- The in-place store ---------------------------------------------------------------------------------

  class Correlator {
    const config: Config
    var timelines: map<ProcessIdentity, Timeline>
    var insertionOrder: seq<ProcessIdentity>
    var telemetryLossEpoch: nat

    ghost function State(): Store
      reads this
    {
      Store(timelines, insertionOrder, telemetryLossEpoch)
    }

    constructor (config: Config)
      requires ValidConfig(config)
      ensures this.config == config && State() == EMPTY
    {
      this.config := config;
      timelines, insertionOrder, telemetryLossEpoch := map[], [], 0;
    }

    method MakeRoom(id: ProcessIdentity)
      modifies this
      ensures State() == EnsureCapacity(config, old(State()), id)
    {
      if id in timelines || |timelines| < config.maxProcesses {
        return;
      }
      ghost var goal := Evict(timelines, insertionOrder);
      while insertionOrder != []
        invariant timelines == old(timelines) && telemetryLossEpoch == old(telemetryLossEpoch)
        invariant goal == Evict(timelines, insertionOrder)
        decreases |insertionOrder|
      {
        var evicted := insertionOrder[0];
        insertionOrder := insertionOrder[1..];
        if evicted in timelines {
          timelines := timelines - {evicted};
          break;
        }
      }
    }

    method IngestEvent(event: KernelEvent) returns (outcome: Outcome)
      requires ValidConfig(config)
      modifies this
      ensures (State(), outcome) == Ingest(config, old(State()), event)
    {
      if event.TelemetryLoss? {
        if event.droppedRecords != 0 {
          telemetryLossEpoch := (telemetryLossEpoch + 1) % TWO_64;
        }
        return Accepted;
      }
      var id := Subject(event).value;
      MakeRoom(id);
      var timeline;
      if id in timelines {
        timeline := timelines[id];
      } else {
        insertionOrder := insertionOrder + [id];
        timeline := Timeline([], telemetryLossEpoch);
      }
      if |timeline.events| == config.maxEvents {
        timeline := timeline.(events := timeline.events[1..]);
      }
      timeline := timeline.(events := timeline.events + [event]);
      timelines := timelines[id := timeline];
      if !IsLeaderExit(event) {
        return Accepted;
      }
      var report := Classify(id, timeline.events, timeline.lossEpochAtCreation != telemetryLossEpoch);
      timelines := timelines - {id};
      outcome := if report.Some? then Death(report.value) else Ignored;
    }
  }
}
