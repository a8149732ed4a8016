/** What quarantine does to the order of delivery: a run in which an unreadable spool record is
    overtaken and then delivered by a late request (src/spool.rs, src/distributed.rs,
    crates/syspilot-cloud/src/lib.rs). */
module Quarantine {
  import opened Prelude
  import opened Telemetry
  import opened Acknowledgement
  import opened Spool
  import opened Collector
  import opened Delivery

  /** Two alerts of one instance that the collector accepts, published at one time. */
  ghost predicate Publishable(c: Config, a: ProcessAlert, b: ProcessAlert, ns: nat) {
    && !IsBlank(c.nk.node) && ReasonableTime(ns)
    && AcceptableAlert(AlertPayload(a)) && AcceptableAlert(AlertPayload(b)) && a.instanceId == b.instanceId
  }

  function AlertEnvelope(c: Config, sequence: nat, ns: nat, a: ProcessAlert): Envelope {
    Built(c, sequence, ns, ProcessAlertKind, AlertPayload(a), map[])
  }

  /** Publish two alerts, send both, give up on the reply, find the first unreadable, send the second. */
  function Overtaking(c: Config, a: ProcessAlert, b: ProcessAlert, ns: nat): seq<Step> {
    var p := c.alertPublisher;
    var second := AlertEnvelope(c, 2, ns, b);
    [Draw(p), Append(p, ns, ProcessAlertKind, AlertPayload(a), map[]),
     Draw(p), Append(p, ns, ProcessAlertKind, AlertPayload(b), map[]),
     Read(2, [1, 2], {}), Send, GiveUp, Read(2, [1, 2], {1}), Send,
     ServeRequest([second], [])]
  }

  lemma EnvelopesValid(c: Config, a: ProcessAlert, sequence: nat, ns: nat)
    requires !IsBlank(c.nk.node) && ReasonableTime(ns) && 0 < sequence <= MAX_I64
    ensures var e := AlertEnvelope(c, sequence, ns, a); ValidEnvelope(e) && ValidBatch([e]) && Storable(e)
  {
    hide Decimal;
    var e := AlertEnvelope(c, sequence, ns, a);
    var i :| 0 <= i < |c.nk.node| && !IsWhitespace(c.nk.node[i]);
    assert e.messageId[i] == c.nk.node[i];
  }

  lemma Extend(c: Config, steps: seq<Step>, step: Step, s: State, t: State)
    requires Run(c, steps) == s && Enabled(c, s, step) && Next(c, s, step) == t
    ensures Run(c, steps + [step]) == t
  {
    RunOne(c, steps, step);
  }

  /** Both alerts in the spool. */
  function Published(c: Config, a: ProcessAlert, b: ProcessAlert, ns: nat): State {
    var e, f := AlertEnvelope(c, 1, ns, a), AlertEnvelope(c, 2, ns, b);
    START.(lastSequence := 2, spool := map[1 := e, 2 := f],
           log := [Entry(c.alertPublisher, e), Entry(c.alertPublisher, f)])
  }

  lemma PublishBoth(c: Config, a: ProcessAlert, b: ProcessAlert, ns: nat)
    requires Publishable(c, a, b, ns)
    ensures Run(c, Overtaking(c, a, b, ns)[..4]) == Published(c, a, b, ns)
  {
    hide MessageId, IsBlank, Run, AcceptableAlert;
    var steps := Overtaking(c, a, b, ns);
    var p, e := c.alertPublisher, AlertEnvelope(c, 1, ns, a);
    EnvelopesValid(c, a, 1, ns);
    EnvelopesValid(c, b, 2, ns);
    var s1 := START.(lastSequence := 1, drawn := map[p := 1]);
    var s2 := START.(lastSequence := 1, spool := map[1 := e], log := [Entry(p, e)]);
    var s3 := s2.(lastSequence := 2, drawn := map[p := 2]);
    RunNothing(c);
    Extend(c, [], steps[0], START, s1);
    Extend(c, [] + [steps[0]], steps[1], s1, s2);
    Extend(c, [] + [steps[0]] + [steps[1]], steps[2], s2, s3);
    Extend(c, [] + [steps[0]] + [steps[1]] + [steps[2]], steps[3], s3, Published(c, a, b, ns));
    assert steps[..4] == [] + [steps[0]] + [steps[1]] + [steps[2]] + [steps[3]];
  }

  lemma RunNothing(c: Config)
    ensures Run(c, []) == START
  {
  }

  /** The worker has sent both records together, and then the second alone. */
  function SentTwice(c: Config, a: ProcessAlert, b: ProcessAlert, ns: nat): State {
    var e, f := AlertEnvelope(c, 1, ns, a), AlertEnvelope(c, 2, ns, b);
    Published(c, a, b, ns).(
      spool := map[2 := f], quarantine := {e}, worker := Holding([f]), sent := {[e, f], [f]})
  }

  lemma SendOnce(c: Config, a: ProcessAlert, b: ProcessAlert, ns: nat)
    requires Publishable(c, a, b, ns)
    ensures var e, f := AlertEnvelope(c, 1, ns, a), AlertEnvelope(c, 2, ns, b);
            Run(c, Overtaking(c, a, b, ns)[..7]) == Published(c, a, b, ns).(sent := {[e, f]}, worker := Idle)
  {
    hide Run, Built, Publishable;
    PublishBoth(c, a, b, ns);
    var steps := Overtaking(c, a, b, ns);
    var e, f := AlertEnvelope(c, 1, ns, a), AlertEnvelope(c, 2, ns, b);
    var s4 := Published(c, a, b, ns);
    BatchOfTwo(s4.spool, e, f);
    var s5 := s4.(worker := Holding([e, f]));
    var s6 := s5.(sent := {[e, f]});
    assert s4.spool - {} == s4.spool;
    Extend(c, steps[..4], steps[4], s4, s5);
    assert steps[..5] == steps[..4] + [steps[4]] && steps[..6] == steps[..5] + [steps[5]];
    Extend(c, steps[..5], steps[5], s5, s6);
    assert steps[..7] == steps[..6] + [steps[6]];
    Extend(c, steps[..6], steps[6], s6, s6.(worker := Idle));
  }

  lemma SendTwice(c: Config, a: ProcessAlert, b: ProcessAlert, ns: nat)
    requires Publishable(c, a, b, ns)
    ensures Run(c, Overtaking(c, a, b, ns)[..9]) == SentTwice(c, a, b, ns)
  {
    hide Run, Built, Publishable;
    SendOnce(c, a, b, ns);
    var steps := Overtaking(c, a, b, ns);
    var e, f := AlertEnvelope(c, 1, ns, a), AlertEnvelope(c, 2, ns, b);
    var s7 := Published(c, a, b, ns).(sent := {[e, f]}, worker := Idle);
    BatchOfTwo(s7.spool, e, f);
    var s8 := s7.(spool := map[2 := f], quarantine := {e}, worker := Holding([f]));
    assert s7.spool - {1} == map[2 := f];
    assert (set k | k in {1} :: s7.spool[k]) == {e};
    assert steps[..8] == steps[..7] + [steps[7]];
    Extend(c, steps[..7], steps[7], s7, s8);
    assert steps[..9] == steps[..8] + [steps[8]];
    Extend(c, steps[..8], steps[8], s8, SentTwice(c, a, b, ns));
  }

  lemma BatchOfTwo(spool: map<nat, Envelope>, e: Envelope, f: Envelope)
    requires spool == map[1 := e, 2 := f]
    ensures Batch(spool, [1, 2], {}) == [e, f] && Batch(spool, [1, 2], {1}) == [f]
    ensures Picked(spool, 2, [1, 2])
  {
    assert [1, 2][..1] == [1] && [1][..0] == [];
    assert Batch(spool, [1], {}) == Batch(spool, [], {}) + [e];
    assert Batch(spool, [1], {1}) == Batch(spool, [], {1}) + [];
  }

  lemma ProcessFresh(db: Tables, nk: NodeKey, front: seq<Envelope>, e: Envelope, before: Tables, outcomes: seq<Outcome>)
    requires Process(db, nk, front, []) == Ok((before, outcomes))
    requires Storable(e) && IsFresh(before, nk, e) && e.kind == ProcessAlertKind && AcceptableAlert(e.payload)
    ensures Process(db, nk, front + [e], []) == Ok((Added(before, nk, e, []), outcomes + [Accepted]))
  {
    hide Added, IsFresh, Storable, AcceptableAlert;
    assert (front + [e])[..|front|] == front;
  }

  /** The tables after the second record alone. */
  function FirstServed(c: Config, b: ProcessAlert, ns: nat): Tables {
    var f := AlertEnvelope(c, 2, ns, b);
    Raise(Added(Collector.EMPTY, c.nk, f, []), c.nk, Some(2))
  }

  lemma ServeSecond(c: Config, a: ProcessAlert, b: ProcessAlert, ns: nat)
    requires Publishable(c, a, b, ns)
    ensures var f := AlertEnvelope(c, 2, ns, b);
            Ingest(Collector.EMPTY, Some(c.nk), true, [f], []).0 == FirstServed(c, b, ns)
    ensures FirstServed(c, b, ns).messages.Keys == {RowKey(c.nk, AlertEnvelope(c, 2, ns, b).messageId)}
    ensures Committed(FirstServed(c, b, ns), c.nk, AlertEnvelope(c, 2, ns, b))
  {
    hide MessageId, IsBlank, ValidEnvelope, ReasonableTime, Materialize;
    var f := AlertEnvelope(c, 2, ns, b);
    EnvelopesValid(c, b, 2, ns);
    assert [] + [f] == [f];
    ProcessFresh(Collector.EMPTY, c.nk, [], f, Collector.EMPTY, []);
    AddedEffects(Collector.EMPTY, c.nk, f, []);
    HighestOfOne(f);
  }

  lemma HighestOfOne(f: Envelope)
    ensures HighestAccepted([f], [] + [Accepted]) == Some(f.sequence)
  {
    assert [f][..0] == [] && ([] + [Accepted])[..0] == [];
    assert HighestAccepted([], []) == None;
  }

  /** An unreadable record is overtaken: its successor is committed and it is not, so what is committed
      is no prefix of what was published. */
  lemma QuarantineBreaksPrefix(c: Config, a: ProcessAlert, b: ProcessAlert, ns: nat)
    requires Publishable(c, a, b, ns)
    ensures var s := Run(c, Overtaking(c, a, b, ns));
            !PrefixHolds(c, s.db, Mine(s.log, c.alertPublisher))
  {
    hide Run, MessageId, Publishable, Ingest, FirstServed, Overtaking;
    ServeSecond(c, a, b, ns);
    IdsDiffer(c, a, b, ns);
    AfterSecond(c, a, b, ns);
    var s := Run(c, Overtaking(c, a, b, ns));
    assert Earlier(s.log, 0, 1);
    assert !OrderKept(c, s.log, s.db, c.alertPublisher);
    PrefixIsOrder(c, s.log, s.db, c.alertPublisher);
  }

  lemma IdsDiffer(c: Config, a: ProcessAlert, b: ProcessAlert, ns: nat)
    ensures AlertEnvelope(c, 1, ns, a).messageId != AlertEnvelope(c, 2, ns, b).messageId
  {
    hide MessageId;
    if AlertEnvelope(c, 1, ns, a).messageId == AlertEnvelope(c, 2, ns, b).messageId {
      MessageIdInjective(c.nk.node, ns, 1, ns, 2);
    }
  }

  lemma ServeBoth(c: Config, a: ProcessAlert, b: ProcessAlert, ns: nat)
    requires Publishable(c, a, b, ns)
    ensures var e, f := AlertEnvelope(c, 1, ns, a), AlertEnvelope(c, 2, ns, b);
            var (db, reply) := Ingest(FirstServed(c, b, ns), Some(c.nk), true, [e, f], []);
            && reply.Ok? && Committed(db, c.nk, e) && Committed(db, c.nk, f)
            && db.alerts == Upsert(FirstServed(c, b, ns).alerts, c.nk, a)
  {
    hide MessageId, IsBlank, ValidEnvelope, ReasonableTime, AcceptableAlert, Upsert, Added, Process, FirstServed, HighestAccepted;
    var e, f := AlertEnvelope(c, 1, ns, a), AlertEnvelope(c, 2, ns, b);
    var db := FirstServed(c, b, ns);
    EnvelopesValid(c, a, 1, ns);
    EnvelopesValid(c, b, 2, ns);
    ServeSecond(c, a, b, ns);
    IdsDiffer(c, a, b, ns);
    ProcessNothing(db, c.nk);
    ProcessFresh(db, c.nk, [], e, db, []);
    assert [] + [e] == [e];
    AddedAlert(db, c.nk, e, a);
    var mid := Added(db, c.nk, e, []);
    ProcessReplayed(mid, db, c.nk, [e], f, [] + [Accepted]);
    assert [e] + [f] == [e, f];
  }

  lemma ProcessNothing(db: Tables, nk: NodeKey)
    ensures Process(db, nk, [], []) == Ok((db, []))
  {
  }

  lemma AddedAlert(db: Tables, nk: NodeKey, e: Envelope, a: ProcessAlert)
    requires e.kind == ProcessAlertKind && e.payload == AlertPayload(a)
    ensures Added(db, nk, e, []).alerts == Upsert(db.alerts, nk, a)
    ensures Added(db, nk, e, []).messages == db.messages[RowKey(nk, e.messageId) := Row(e, Some(Sha256(e)))]
  {
    hide Upsert;
  }

  lemma ProcessReplayed(mid: Tables, db: Tables, nk: NodeKey, front: seq<Envelope>, e: Envelope, outcomes: seq<Outcome>)
    requires Process(db, nk, front, []) == Ok((mid, outcomes)) && Storable(e) && Committed(mid, nk, e)
    ensures Process(db, nk, front + [e], []) == Ok((mid, outcomes + [Accepted]))
  {
    hide Added, Storable, AcceptableAlert;
    assert (front + [e])[..|front|] == front;
  }

  /** The first request, arriving late, then commits the overtaken record, and the alert goes back to
      the state published first although both are committed. */
  lemma LateRequestRegresses(c: Config, a: ProcessAlert, b: ProcessAlert, ns: nat)
    requires Publishable(c, a, b, ns)
    ensures var e, f := AlertEnvelope(c, 1, ns, a), AlertEnvelope(c, 2, ns, b);
            var s := Run(c, Overtaking(c, a, b, ns) + [ServeRequest([e, f], [])]);
            var key := AlertKey(c.nk.tenant, b.instanceId);
            && s.log == [Entry(c.alertPublisher, e), Entry(c.alertPublisher, f)]
            && Committed(s.db, c.nk, e) && Committed(s.db, c.nk, f)
            && key in s.db.alerts && s.db.alerts[key].payload == a
  {
    hide Run, MessageId, AcceptableAlert, IsBlank, Ingest, FirstServed, Built, Overtaking, Committed;
    var steps := Overtaking(c, a, b, ns);
    var e, f := AlertEnvelope(c, 1, ns, a), AlertEnvelope(c, 2, ns, b);
    SendTwice(c, a, b, ns);
    ServeSecond(c, a, b, ns);
    ServeBoth(c, a, b, ns);
    AfterSecond(c, a, b, ns);
    RunOne(c, steps, ServeRequest([e, f], []));
  }

  lemma AfterSecond(c: Config, a: ProcessAlert, b: ProcessAlert, ns: nat)
    requires Publishable(c, a, b, ns)
    ensures var t := Run(c, Overtaking(c, a, b, ns));
            var s := SentTwice(c, a, b, ns);
            t.log == s.log && t.sent == s.sent && t.quarantine == s.quarantine && t.db == FirstServed(c, b, ns)
  {
    hide Run, MessageId, Publishable, Ingest, FirstServed;
    var steps := Overtaking(c, a, b, ns);
    SendTwice(c, a, b, ns);
    ServeSecond(c, a, b, ns);
    RunOne(c, steps[..9], steps[9]);
    assert steps == steps[..9] + [steps[9]];
  }
}
