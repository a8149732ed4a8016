/** The collector's ingestion transaction (crates/syspilot-cloud/src/lib.rs and the tables of
    deploy/fleet/postgres).

    A request either commits all of its effects or none.  The digest is a free constructor, that is,
    an injective function of the envelope. */
module Collector {
  import opened Prelude
  import opened Telemetry
  import opened Acknowledgement

  datatype NodeKey = NodeKey(tenant: string, node: string)

  datatype RowKey = RowKey(node: NodeKey, messageId: string)

  datatype AlertKey = AlertKey(tenant: string, instanceId: string)

  datatype Digest = Sha256(envelope: Envelope)

  /** Rows stored before digests were introduced have none. */
  datatype Row = Row(envelope: Envelope, digest: Option<Digest>)

  datatype AlertRow = AlertRow(
    node: string, ruleId: string, payload: ProcessAlert, firstObserved: nat, lastTransition: nat)

  datatype Delivery = Delivery(alert: AlertKey, destination: string)

  datatype Tables = Tables(
    messages: map<RowKey, Row>, jobs: set<RowKey>, alerts: map<AlertKey, AlertRow>, deliveries: seq<Delivery>,
    highest: map<NodeKey, nat>)

  const EMPTY := Tables(map[], {}, map[], [], map[])

  datatype ApiError = Unauthorized | Invalid | Saturated

  datatype Outcome = Accepted | SequenceConflict | ReplayConflict

  const MAX_BATCH := 256
  const MAX_I64 := 0x7FFF_FFFF_FFFF_FFFF
  const NANOS_PER_SECOND := 1_000_000_000
  const MIN_REASONABLE_UNIX_SECONDS := 946_684_800
  const MAX_REASONABLE_UNIX_SECONDS := 4_102_444_799

  predicate ReasonableTime(ns: nat) {
    MIN_REASONABLE_UNIX_SECONDS <= ns / NANOS_PER_SECOND <= MAX_REASONABLE_UNIX_SECONDS
  }

  predicate ValidBatch(batch: seq<Envelope>) {
    && 0 < |batch| <= MAX_BATCH
    && forall e | e in batch :: ValidEnvelope(e) && e.sequence > 0 && ReasonableTime(e.observedNs)
  }

  /** The alert table keeps what it first learnt and replaces state and payload. */
  function Upsert(alerts: map<AlertKey, AlertRow>, nk: NodeKey, a: ProcessAlert): map<AlertKey, AlertRow> {
    var key := AlertKey(nk.tenant, a.instanceId);
    var micros := a.observedNs / 1000;
    alerts[key := if key in alerts then alerts[key].(payload := a, lastTransition := micros)
                  else AlertRow(nk.node, a.ruleId, a, micros, micros)]
  }

  predicate AcceptableAlert(p: Payload) {
    && p.AlertPayload?
    && !IsBlank(p.alert.instanceId) && !IsBlank(p.alert.ruleId)
    && p.alert.state in {"firing", "acknowledged", "resolved", "suppressed"}
    && ReasonableTime(p.alert.observedNs)
  }

  function Materialize(db: Tables, nk: NodeKey, a: ProcessAlert, destinations: seq<string>): Tables {
    db.(
      alerts := Upsert(db.alerts, nk, a),
      deliveries := db.deliveries +
        if a.state == "firing" then
          seq(|destinations|, i requires 0 <= i < |destinations| =>
            Delivery(AlertKey(nk.tenant, a.instanceId), destinations[i]))
        else [])
  }

  predicate SequenceTaken(db: Tables, nk: NodeKey, sequence: nat) {
    exists k | k in db.messages :: k.node == nk && db.messages[k].envelope.sequence == sequence
  }

  /** A message neither of whose unique keys is taken. */
  predicate IsFresh(db: Tables, nk: NodeKey, e: Envelope) {
    RowKey(nk, e.messageId) !in db.messages && !SequenceTaken(db, nk, e.sequence)
  }

  /** The effects of a fresh message: its row, its alert, its reasoning job. */
  function Added(db: Tables, nk: NodeKey, e: Envelope, destinations: seq<string>): Tables {
    var key := RowKey(nk, e.messageId);
    var withRow := db.(messages := db.messages[key := Row(e, Some(Sha256(e)))]);
    var withAlert :=
      if e.kind == ProcessAlertKind && e.payload.AlertPayload? then Materialize(withRow, nk, e.payload.alert, destinations) else withRow;
    withAlert.(jobs := if e.kind == Health then db.jobs else db.jobs + {key})
  }

  /** A message that conflicts: an exact replay is accepted, anything else refused. */
  function Replayed(db: Tables, nk: NodeKey, e: Envelope): (Tables, Outcome) {
    var key := RowKey(nk, e.messageId);
    if key !in db.messages then (db, SequenceConflict) else
    var row := db.messages[key];
    if row.digest == Some(Sha256(e)) then (db, Accepted)
    else if row.digest.None? && row.envelope == e then
      (db.(messages := db.messages[key := row.(digest := Some(Sha256(e)))]), Accepted)
    else (db, ReplayConflict)
  }

  predicate Storable(e: Envelope) {
    e.sequence <= MAX_I64 && ReasonableTime(e.observedNs)
  }

  function Insert(db: Tables, nk: NodeKey, e: Envelope, destinations: seq<string>)
      : Result<(Tables, Outcome), ApiError>
  {
    if !Storable(e) then Err(Invalid)
    else if !IsFresh(db, nk, e) then Ok(Replayed(db, nk, e))
    else if e.kind == ProcessAlertKind && !AcceptableAlert(e.payload) then Err(Invalid)
    else Ok((Added(db, nk, e, destinations), Accepted))
  }

  /** The batch in order, with one outcome per record; any error abandons the whole transaction. */
  function Process(db: Tables, nk: NodeKey, batch: seq<Envelope>, destinations: seq<string>)
      : (r: Result<(Tables, seq<Outcome>), ApiError>)
    ensures r.Ok? ==> |r.value.1| == |batch|
  {
    if batch == [] then Ok((db, [])) else
    match Process(db, nk, batch[..|batch| - 1], destinations)
    case Err(error) => Err(error)
    case Ok((before, outcomes)) =>
      match Insert(before, nk, batch[|batch| - 1], destinations)
      case Err(error) => Err(error)
      case Ok((after, outcome)) => Ok((after, outcomes + [outcome]))
  }

  function Reason(o: Outcome): string {
    match o
    case SequenceConflict => "sequence_conflict"
    case _ => "message_id_content_conflict"
  }

  function AcceptedIds(batch: seq<Envelope>, outcomes: seq<Outcome>): seq<string>
    requires |outcomes| == |batch|
  {
    if batch == [] then [] else
    var n := |batch| - 1;
    AcceptedIds(batch[..n], outcomes[..n]) + if outcomes[n].Accepted? then [batch[n].messageId] else []
  }

  function RejectedRecords(batch: seq<Envelope>, outcomes: seq<Outcome>): seq<Rejected>
    requires |outcomes| == |batch|
  {
    if batch == [] then [] else
    var n := |batch| - 1;
    RejectedRecords(batch[..n], outcomes[..n])
    + if outcomes[n].Accepted? then [] else [Rejected(batch[n].messageId, Reason(outcomes[n]))]
  }

  function HighestAccepted(batch: seq<Envelope>, outcomes: seq<Outcome>): Option<nat>
    requires |outcomes| == |batch|
  {
    if batch == [] then None else
    var n := |batch| - 1;
    var front := HighestAccepted(batch[..n], outcomes[..n]);
    if outcomes[n].Accepted? then MaxOption(front, batch[n].sequence) else front
  }

  function Reply(batch: seq<Envelope>, outcomes: seq<Outcome>): Ack
    requires |outcomes| == |batch|
  {
    Ack(AcceptedIds(batch, outcomes), HighestAccepted(batch, outcomes), RejectedRecords(batch, outcomes), None)
  }

  /** `GREATEST` of what is stored and what this batch accepted. */
  function Raise(db: Tables, nk: NodeKey, highest: Option<nat>): Tables {
    match highest
    case None => db
    case Some(n) => db.(highest := db.highest[nk := if nk in db.highest && db.highest[nk] >= n then db.highest[nk] else n])
  }

  function Ingest(db: Tables, identity: Option<NodeKey>, admitted: bool, batch: seq<Envelope>, destinations: seq<string>)
      : (Tables, Result<Ack, ApiError>)
  {
    if !ValidBatch(batch) then (db, Err(Invalid))
    else if identity.None? then (db, Err(Unauthorized))
    else if exists e | e in batch :: e.nodeId != identity.value.node then (db, Err(Invalid))
    else if !admitted then (db, Err(Saturated))
    else
      match Process(db, identity.value, batch, destinations)
      case Err(error) => (db, Err(error))
      case Ok((after, outcomes)) =>
        (Raise(after, identity.value, HighestAccepted(batch, outcomes)), Ok(Reply(batch, outcomes)))
  }

  // ---- Table invariants -------------------------------------------------------------------------------

  ghost predicate RowsSound(db: Tables) {
    && (forall k | k in db.messages ::
          && db.messages[k].envelope.messageId == k.messageId
          && (db.messages[k].digest.Some? ==> db.messages[k].digest.value == Sha256(db.messages[k].envelope)))
    && (forall k, l | k in db.messages && l in db.messages && k.node == l.node
                      && db.messages[k].envelope.sequence == db.messages[l].envelope.sequence :: k == l)
    && db.jobs <= db.messages.Keys
  }

  ghost predicate IsHighest(db: Tables, nk: NodeKey, n: nat) {
    && SequenceTaken(db, nk, n)
    && forall k | k in db.messages && k.node == nk :: db.messages[k].envelope.sequence <= n
  }

  /** The recorded highest sequence of a node is the maximum over its stored messages. */
  ghost predicate HighestExact(db: Tables) {
    && (forall k | k in db.messages :: k.node in db.highest)
    && (forall nk | nk in db.highest :: IsHighest(db, nk, db.highest[nk]))
  }

  ghost predicate Sound(db: Tables) {
    RowsSound(db) && HighestExact(db)
  }

  /** Later tables: no message lost or altered, nothing undone. */
  ghost predicate Extends(before: Tables, after: Tables) {
    && (forall k | k in before.messages ::
          && k in after.messages
          && after.messages[k].envelope == before.messages[k].envelope
          && (before.messages[k].digest.Some? ==> after.messages[k].digest == before.messages[k].digest))
    && before.jobs <= after.jobs
    && before.deliveries <= after.deliveries
  }

  lemma ExtendsTransitive(a: Tables, b: Tables, c: Tables)
    requires Extends(a, b) && Extends(b, c)
    ensures Extends(a, c)
  {
  }

  lemma InsertSound(db: Tables, nk: NodeKey, e: Envelope, destinations: seq<string>)
    requires RowsSound(db) && Insert(db, nk, e, destinations).Ok?
    ensures var db' := Insert(db, nk, e, destinations).value.0;
            RowsSound(db') && Extends(db, db') && db'.highest == db.highest
  {
    hide Added, AcceptableAlert, Storable, RowsSound, Extends;
    if IsFresh(db, nk, e) {
      AddedEffects(db, nk, e, destinations);
      FreshRow(db, Added(db, nk, e, destinations), nk, e);
    } else {
      ReplaySound(db, nk, e);
    }
  }

  lemma FreshRow(db: Tables, db': Tables, nk: NodeKey, e: Envelope)
    requires RowsSound(db) && IsFresh(db, nk, e)
    requires db'.messages == db.messages[RowKey(nk, e.messageId) := Row(e, Some(Sha256(e)))]
    requires db.jobs <= db'.jobs <= db.jobs + {RowKey(nk, e.messageId)} && db.deliveries <= db'.deliveries
    ensures RowsSound(db') && Extends(db, db')
  {
  }

  lemma ReplaySound(db: Tables, nk: NodeKey, e: Envelope)
    requires RowsSound(db)
    ensures RowsSound(Replayed(db, nk, e).0) && Extends(db, Replayed(db, nk, e).0)
    ensures Replayed(db, nk, e).0.highest == db.highest
  {
    hide RowsSound, Extends;
    ExtendsSelf(db);
    var key := RowKey(nk, e.messageId);
    if key in db.messages && db.messages[key] == Row(e, None) {
      StampSound(db, db.(messages := db.messages[key := Row(e, Some(Sha256(e)))]), key, e);
    }
  }

  /** Giving a stored message the digest of its own envelope. */
  lemma StampSound(db: Tables, db': Tables, key: RowKey, e: Envelope)
    requires RowsSound(db) && key in db.messages && db.messages[key] == Row(e, None)
    requires db' == db.(messages := db.messages[key := Row(e, Some(Sha256(e)))])
    ensures RowsSound(db') && Extends(db, db')
  {
    assert db'.messages.Keys == db.messages.Keys;
    assert forall k | k in db.messages :: db'.messages[k].envelope == db.messages[k].envelope;
  }

  lemma AddedEffects(db: Tables, nk: NodeKey, e: Envelope, destinations: seq<string>)
    ensures var db', key := Added(db, nk, e, destinations), RowKey(nk, e.messageId);
            && db'.messages == db.messages[key := Row(e, Some(Sha256(e)))]
            && db.jobs <= db'.jobs <= db.jobs + {key}
            && db.deliveries <= db'.deliveries
            && db'.highest == db.highest
  {
    hide Upsert;
  }

  lemma {:induction false} ProcessSound(db: Tables, nk: NodeKey, batch: seq<Envelope>, destinations: seq<string>)
    requires RowsSound(db) && Process(db, nk, batch, destinations).Ok?
    ensures var db' := Process(db, nk, batch, destinations).value.0;
            RowsSound(db') && Extends(db, db') && db'.highest == db.highest
  {
    hide Insert, RowsSound, Extends;
    if batch == [] {
      assert Extends(db, db) by { ExtendsSelf(db); }
    } else {
      var front := batch[..|batch| - 1];
      ProcessSound(db, nk, front, destinations);
      var before := Process(db, nk, front, destinations).value.0;
      InsertSound(before, nk, batch[|batch| - 1], destinations);
      ExtendsTransitive(db, before, Process(db, nk, batch, destinations).value.0);
    }
  }

  lemma ExtendsSelf(db: Tables)
    ensures Extends(db, db)
  {
  }

  // ---- What a processed record leaves behind --------------------------------------------------------------

  /** The message is stored as sent, with its digest. */
  predicate Committed(db: Tables, nk: NodeKey, e: Envelope) {
    var key := RowKey(nk, e.messageId);
    key in db.messages && db.messages[key] == Row(e, Some(Sha256(e)))
  }

  /** Some stored message of the node has the same id and other content, or the same sequence and
      another id. */
  ghost predicate Refused(db: Tables, nk: NodeKey, e: Envelope) {
    exists k | k in db.messages ::
      k.node == nk && if k.messageId == e.messageId then db.messages[k].envelope != e
                      else db.messages[k].envelope.sequence == e.sequence
  }

  ghost predicate Settled(db: Tables, nk: NodeKey, e: Envelope, o: Outcome) {
    if o.Accepted? then Committed(db, nk, e) else Refused(db, nk, e)
  }

  lemma InsertSettles(db: Tables, nk: NodeKey, e: Envelope, destinations: seq<string>)
    requires RowsSound(db) && Insert(db, nk, e, destinations).Ok?
    ensures var (db', o) := Insert(db, nk, e, destinations).value; Settled(db', nk, e, o)
  {
    hide Upsert, AcceptableAlert, ReasonableTime;
    var key := RowKey(nk, e.messageId);
    if !IsFresh(db, nk, e) {
      if key in db.messages {
        assert db.messages[key].envelope != e ==> Refused(db, nk, e);
      } else {
        var k :| k in db.messages && k.node == nk && db.messages[k].envelope.sequence == e.sequence;
        assert k.messageId != e.messageId;
      }
    }
  }

  lemma SettledPersists(before: Tables, after: Tables, nk: NodeKey, e: Envelope, o: Outcome)
    requires Extends(before, after) && RowsSound(after) && Settled(before, nk, e, o)
    ensures Settled(after, nk, e, o)
  {
    if o.Accepted? {
      assert after.messages[RowKey(nk, e.messageId)].envelope == e;
    } else {
      var k :| k in before.messages && k.node == nk
               && if k.messageId == e.messageId then before.messages[k].envelope != e
                  else before.messages[k].envelope.sequence == e.sequence;
      assert k in after.messages && after.messages[k].envelope == before.messages[k].envelope;
    }
  }

  lemma {:induction false} ProcessSettles(db: Tables, nk: NodeKey, batch: seq<Envelope>, destinations: seq<string>, i: nat)
    requires RowsSound(db) && Process(db, nk, batch, destinations).Ok? && i < |batch|
    ensures var (db', outcomes) := Process(db, nk, batch, destinations).value; Settled(db', nk, batch[i], outcomes[i])
    ensures Storable(batch[i])
    decreases |batch|
  {
    hide Settled, RowsSound, Extends, Insert;
    var front := batch[..|batch| - 1];
    var before := Process(db, nk, front, destinations).value.0;
    ProcessSound(db, nk, front, destinations);
    var last := batch[|batch| - 1];
    if i < |front| {
      ProcessSettles(db, nk, front, destinations, i);
      InsertSound(before, nk, last, destinations);
      var (after, outcomes) := Process(db, nk, batch, destinations).value;
      SettledPersists(before, after, nk, batch[i], outcomes[i]);
    } else {
      InsertSettles(before, nk, last, destinations);
      InsertStorable(before, nk, last, destinations);
    }
  }

  lemma InsertStorable(db: Tables, nk: NodeKey, e: Envelope, destinations: seq<string>)
    requires Insert(db, nk, e, destinations).Ok?
    ensures Storable(e)
  {
  }

  /** A settled record meets the same decision again and changes nothing. */
  lemma SettledReplay(db: Tables, nk: NodeKey, e: Envelope, o: Outcome, destinations: seq<string>)
    requires RowsSound(db) && Settled(db, nk, e, o) && Storable(e)
    ensures Insert(db, nk, e, destinations).Ok?
    ensures var (db', o') := Insert(db, nk, e, destinations).value;
            db' == db && (o'.Accepted? <==> o.Accepted?)
  {
    hide Upsert, AcceptableAlert, ReasonableTime, Added;
    var key := RowKey(nk, e.messageId);
    if !o.Accepted? {
      var k :| k in db.messages && k.node == nk
               && if k.messageId == e.messageId then db.messages[k].envelope != e
                  else db.messages[k].envelope.sequence == e.sequence;
      assert k.messageId == e.messageId ==> k == key;
      assert !IsFresh(db, nk, e);
      assert key in db.messages ==> db.messages[key].envelope != e;
    }
  }

  lemma {:induction false} ProcessReplay(
    db: Tables, nk: NodeKey, batch: seq<Envelope>, outcomes: seq<Outcome>, destinations: seq<string>)
    requires RowsSound(db) && |outcomes| == |batch|
    requires forall i | 0 <= i < |batch| :: Settled(db, nk, batch[i], outcomes[i]) && Storable(batch[i])
    ensures Process(db, nk, batch, destinations).Ok?
    ensures var (db', again) := Process(db, nk, batch, destinations).value;
            db' == db && forall i | 0 <= i < |batch| :: again[i].Accepted? <==> outcomes[i].Accepted?
  {
    hide Settled, RowsSound, Insert, Storable;
    if batch != [] {
      var n := |batch| - 1;
      ProcessReplay(db, nk, batch[..n], outcomes[..n], destinations);
      SettledReplay(db, nk, batch[n], outcomes[n], destinations);
    }
  }

  lemma {:induction false} SameDecisions(batch: seq<Envelope>, a: seq<Outcome>, b: seq<Outcome>)
    requires |a| == |b| == |batch| && forall i | 0 <= i < |batch| :: a[i].Accepted? <==> b[i].Accepted?
    ensures AcceptedIds(batch, a) == AcceptedIds(batch, b) && HighestAccepted(batch, a) == HighestAccepted(batch, b)
    ensures RejectedIds(RejectedRecords(batch, a)) == RejectedIds(RejectedRecords(batch, b))
  {
    if batch != [] {
      var n := |batch| - 1;
      SameDecisions(batch[..n], a[..n], b[..n]);
      var id := batch[n].messageId;
      RejectedAppend(RejectedRecords(batch[..n], a[..n]), Rejected(id, Reason(a[n])));
      RejectedAppend(RejectedRecords(batch[..n], b[..n]), Rejected(id, Reason(b[n])));
    }
  }

  lemma RejectedAppend(rejected: seq<Rejected>, r: Rejected)
    ensures RejectedIds(rejected + [r]) == RejectedIds(rejected) + [r.messageId]
    ensures rejected + [] == rejected
  {
  }

  // ---- The highest sequence ---------------------------------------------------------------------------------

  /** New rows of a batch belong to its node and lie within what the batch reports as highest. */
  lemma {:induction false} ProcessHighest(db: Tables, nk: NodeKey, batch: seq<Envelope>, destinations: seq<string>)
    requires RowsSound(db) && Process(db, nk, batch, destinations).Ok?
    ensures var (db', outcomes) := Process(db, nk, batch, destinations).value;
            var top := HighestAccepted(batch, outcomes);
            && (top.Some? ==> SequenceTaken(db', nk, top.value))
            && forall k | k in db'.messages && k !in db.messages ::
                 k.node == nk && top.Some? && db'.messages[k].envelope.sequence <= top.value
  {
    hide Insert, RowsSound, Settled, SequenceTaken;
    if batch != [] {
      var front, last := batch[..|batch| - 1], batch[|batch| - 1];
      ProcessHighest(db, nk, front, destinations);
      ProcessSound(db, nk, front, destinations);
      var (before, outs) := Process(db, nk, front, destinations).value;
      var (after, outcomes) := Process(db, nk, batch, destinations).value;
      InsertSound(before, nk, last, destinations);
      InsertSettles(before, nk, last, destinations);
      assert outcomes[..|front|] == outs;
      TakenPersists(before, after, nk);
      InsertNewRows(before, nk, last, destinations);
      if outcomes[|front|].Accepted? {
        LastTaken(after, nk, last, outcomes[|front|]);
      }
    }
  }

  lemma TakenPersists(before: Tables, after: Tables, nk: NodeKey)
    requires Extends(before, after)
    ensures forall n | SequenceTaken(before, nk, n) :: SequenceTaken(after, nk, n)
  {
  }

  lemma InsertNewRows(db: Tables, nk: NodeKey, e: Envelope, destinations: seq<string>)
    requires Insert(db, nk, e, destinations).Ok?
    ensures var (db', o) := Insert(db, nk, e, destinations).value;
            forall k | k in db'.messages && k !in db.messages ::
              k.node == nk && o.Accepted? && db'.messages[k].envelope == e
  {
  }

  lemma LastTaken(db: Tables, nk: NodeKey, e: Envelope, o: Outcome)
    requires Settled(db, nk, e, o) && o.Accepted?
    ensures SequenceTaken(db, nk, e.sequence)
  {
    assert RowKey(nk, e.messageId) in db.messages;
  }

  lemma RaiseExact(db: Tables, after: Tables, nk: NodeKey, top: Option<nat>)
    requires Sound(db) && Extends(db, after) && RowsSound(after) && after.highest == db.highest
    requires top.Some? ==> SequenceTaken(after, nk, top.value)
    requires forall k | k in after.messages && k !in db.messages ::
               k.node == nk && top.Some? && after.messages[k].envelope.sequence <= top.value
    ensures Sound(Raise(after, nk, top))
  {
    hide RowsSound;
    RaiseKeepsRows(after, nk, top);
    var raised := Raise(after, nk, top);
    forall k | k in raised.messages
      ensures k.node in raised.highest
    {
      assert k !in db.messages ==> k.node == nk && top.Some?;
    }
    forall other | other in raised.highest
      ensures IsHighest(raised, other, raised.highest[other])
    {
      if other in db.highest {
        HighestKept(db, after, nk, top, other);
      } else {
        FirstHighest(db, after, nk, top);
      }
    }
  }

  lemma RaiseKeepsRows(after: Tables, nk: NodeKey, top: Option<nat>)
    requires RowsSound(after)
    ensures RowsSound(Raise(after, nk, top))
  {
  }

  lemma FirstHighest(db: Tables, after: Tables, nk: NodeKey, top: Option<nat>)
    requires HighestExact(db) && nk !in db.highest && after.highest == db.highest
    requires top.Some? && SequenceTaken(after, nk, top.value)
    requires forall k | k in after.messages && k !in db.messages ::
               k.node == nk && top.Some? && after.messages[k].envelope.sequence <= top.value
    ensures var raised := Raise(after, nk, top); IsHighest(raised, nk, raised.highest[nk])
  {
  }

  lemma HighestKept(db: Tables, after: Tables, nk: NodeKey, top: Option<nat>, other: NodeKey)
    requires HighestExact(db) && Extends(db, after) && other in db.highest && after.highest == db.highest
    requires top.Some? ==> SequenceTaken(after, nk, top.value)
    requires forall k | k in after.messages && k !in db.messages ::
               k.node == nk && top.Some? && after.messages[k].envelope.sequence <= top.value
    ensures var raised := Raise(after, nk, top); IsHighest(raised, other, raised.highest[other])
  {
    TakenPersists(db, after, other);
    assert IsHighest(db, other, db.highest[other]);
  }

  /** Every request keeps the tables sound and only ever adds to them. */
  lemma IngestSound(db: Tables, identity: Option<NodeKey>, admitted: bool, batch: seq<Envelope>, destinations: seq<string>)
    requires Sound(db)
    ensures var db' := Ingest(db, identity, admitted, batch, destinations).0; Sound(db') && Extends(db, db')
  {
    hide RowsSound, HighestExact, Extends, ValidBatch, Process, Raise;
    ExtendsSelf(db);
    if Ingest(db, identity, admitted, batch, destinations).1.Ok? {
      var nk := identity.value;
      ProcessSound(db, nk, batch, destinations);
      ProcessHighest(db, nk, batch, destinations);
      var (after, outcomes) := Process(db, nk, batch, destinations).value;
      RaiseExact(db, after, nk, HighestAccepted(batch, outcomes));
      RaiseExtends(db, after, nk, HighestAccepted(batch, outcomes));
    }
  }

  lemma RaiseExtends(db: Tables, after: Tables, nk: NodeKey, top: Option<nat>)
    requires Extends(db, after)
    ensures Extends(db, Raise(after, nk, top))
  {
  }

  // ---- Runs ---------------------------------------------------------------------------------------------------

  datatype Request = Request(identity: Option<NodeKey>, admitted: bool, batch: seq<Envelope>, destinations: seq<string>)

  /** Any requests from any nodes, one transaction after another. */
  function Serve(db: Tables, requests: seq<Request>): Tables {
    if requests == [] then db else
    var before := Serve(db, requests[..|requests| - 1]);
    var r := requests[|requests| - 1];
    Ingest(before, r.identity, r.admitted, r.batch, r.destinations).0
  }

  lemma {:induction false} ServeSound(db: Tables, requests: seq<Request>)
    requires Sound(db)
    ensures Sound(Serve(db, requests)) && Extends(db, Serve(db, requests))
  {
    hide Sound, Extends, Ingest;
    if requests == [] {
      ExtendsSelf(db);
    } else {
      var front, r := requests[..|requests| - 1], requests[|requests| - 1];
      ServeSound(db, front);
      IngestSound(Serve(db, front), r.identity, r.admitted, r.batch, r.destinations);
      ExtendsTransitive(db, Serve(db, front), Serve(db, requests));
    }
  }

  /** Exactly-once effects.  A batch that once committed, sent again after any other requests, is
      answered with the same accepted and the same rejected ids and the same highest sequence, and
      leaves every table exactly as it found it, whatever destinations are enabled by then. */
  lemma ReplayIsNoOp(db: Tables, r: Request, later: seq<Request>, destinations: seq<string>)
    requires Sound(db)
    requires Ingest(db, r.identity, r.admitted, r.batch, r.destinations).1.Ok?
    ensures var (committed, first) := Ingest(db, r.identity, r.admitted, r.batch, r.destinations);
            var now := Serve(committed, later);
            var (after, again) := Ingest(now, r.identity, true, r.batch, destinations);
            && after == now
            && again.Ok?
            && again.value.accepted == first.value.accepted
            && RejectedIds(again.value.rejected) == RejectedIds(first.value.rejected)
            && again.value.highest == first.value.highest
  {
    hide RowsSound, HighestExact, Extends, ValidBatch, Process, Raise, Settled, AcceptedIds, RejectedRecords, HighestAccepted;
    var nk := r.identity.value;
    var (processed, outcomes) := Process(db, nk, r.batch, r.destinations).value;
    var top := HighestAccepted(r.batch, outcomes);
    var committed := Raise(processed, nk, top);
    IngestSound(db, r.identity, r.admitted, r.batch, r.destinations);
    var now := Serve(committed, later);
    ServeSound(committed, later);
    ProcessSound(db, nk, r.batch, r.destinations);
    ExtendsSelf(processed);
    RaiseExtends(processed, processed, nk, top);
    ExtendsTransitive(processed, committed, now);
    forall i | 0 <= i < |r.batch|
      ensures Settled(now, nk, r.batch[i], outcomes[i]) && Storable(r.batch[i])
    {
      ProcessSettles(db, nk, r.batch, r.destinations, i);
      SettledPersists(processed, now, nk, r.batch[i], outcomes[i]);
    }
    ProcessReplay(now, nk, r.batch, outcomes, destinations);
    var again := Process(now, nk, r.batch, destinations).value.1;
    SameDecisions(r.batch, outcomes, again);
    ProcessHighest(db, nk, r.batch, r.destinations);
    RaiseAgain(processed, now, nk, top);
  }

  lemma RaiseAgain(processed: Tables, now: Tables, nk: NodeKey, top: Option<nat>)
    requires Extends(processed, now) && HighestExact(now)
    requires top.Some? ==> SequenceTaken(processed, nk, top.value)
    ensures Raise(now, nk, top) == now
  {
    if top.Some? {
      TakenPersists(processed, now, nk);
      var k :| k in now.messages && k.node == nk && now.messages[k].envelope.sequence == top.value;
      assert nk in now.highest && IsHighest(now, nk, now.highest[nk]);
    }
  }

  // ---- The reply -----------------------------------------------------------------------------------------------

  /** The reply decides every record exactly once: accepted and rejected ids together are the batch. */
  lemma {:induction false} ReplyPartitions(batch: seq<Envelope>, outcomes: seq<Outcome>)
    requires |outcomes| == |batch|
    ensures multiset(AcceptedIds(batch, outcomes)) + multiset(RejectedIds(RejectedRecords(batch, outcomes)))
            == multiset(Ids(batch))
  {
    if batch != [] {
      var n := |batch| - 1;
      var front, outs := batch[..n], outcomes[..n];
      ReplyPartitions(front, outs);
      assert Ids(batch) == Ids(front) + [batch[n].messageId];
      RejectedAppend(RejectedRecords(front, outs), Rejected(batch[n].messageId, Reason(outcomes[n])));
      assert AcceptedIds(front, outs) + [] == AcceptedIds(front, outs);
    }
  }

  lemma {:induction false} HighestAgrees(batch: seq<Envelope>, outcomes: seq<Outcome>, ids: seq<string>)
    requires |outcomes| == |batch|
    requires forall i | 0 <= i < |batch| :: batch[i].messageId in ids <==> outcomes[i].Accepted?
    ensures HighestListed(batch, ids) == HighestAccepted(batch, outcomes)
  {
    if batch != [] {
      var n := |batch| - 1;
      HighestAgrees(batch[..n], outcomes[..n], ids);
    }
  }

  lemma {:induction false} AcceptedExactly(batch: seq<Envelope>, outcomes: seq<Outcome>, i: nat)
    requires |outcomes| == |batch| && i < |batch| && NoDup(Ids(batch))
    ensures batch[i].messageId in AcceptedIds(batch, outcomes) <==> outcomes[i].Accepted?
    decreases |batch|
  {
    var n := |batch| - 1;
    var front, outs := batch[..n], outcomes[..n];
    assert forall j | 0 <= j < |batch| :: Ids(batch)[j] == batch[j].messageId;
    assert forall j | 0 <= j < n :: Ids(front)[j] == front[j].messageId == Ids(batch)[j];
    if i < n {
      AcceptedExactly(front, outs, i);
    } else {
      AcceptedFrom(front, outs, batch[n].messageId);
    }
  }

  lemma {:induction false} AcceptedFrom(batch: seq<Envelope>, outcomes: seq<Outcome>, id: string)
    requires |outcomes| == |batch|
    ensures id in AcceptedIds(batch, outcomes) ==> exists j :: 0 <= j < |batch| && batch[j].messageId == id
  {
    if batch != [] && id in AcceptedIds(batch, outcomes) {
      var n := |batch| - 1;
      AcceptedFrom(batch[..n], outcomes[..n], id);
      if j :| 0 <= j < n && batch[..n][j].messageId == id {
        assert batch[j].messageId == id;
      }
    }
  }

  lemma {:induction false} ReasonsGiven(batch: seq<Envelope>, outcomes: seq<Outcome>)
    requires |outcomes| == |batch|
    ensures forall r | r in RejectedRecords(batch, outcomes) :: !IsBlank(r.reason)
  {
    if batch != [] {
      var n := |batch| - 1;
      ReasonsGiven(batch[..n], outcomes[..n]);
      assert Reason(SequenceConflict)[0] == 's' && Reason(ReplayConflict)[0] == 'm';
    }
  }

  /** The agent trusts the collector's reply to a non-empty batch exactly when its ids are distinct. */
  lemma ReplyTrustedExactly(batch: seq<Envelope>, outcomes: seq<Outcome>)
    requires |outcomes| == |batch| > 0
    ensures Trustworthy(Reply(batch, outcomes), batch) <==> NoDup(Ids(batch))
  {
    hide IsBlank, AcceptedIds, RejectedRecords, HighestAccepted, NoDup;
    var ack := Reply(batch, outcomes);
    var decided := ack.accepted + RejectedIds(ack.rejected);
    ReplyPartitions(batch, outcomes);
    assert multiset(decided) == multiset(Ids(batch));
    NoDupByCount(decided);
    NoDupByCount(Ids(batch));
    ReasonsGiven(batch, outcomes);
    forall id | id in decided
      ensures id in Ids(batch)
    {
      assert id in multiset(decided);
    }
    assert |decided| == |multiset(decided)| == |Ids(batch)| > 0;
    if NoDup(Ids(batch)) {
      forall i | 0 <= i < |batch|
        ensures batch[i].messageId in ack.accepted <==> outcomes[i].Accepted?
      {
        AcceptedExactly(batch, outcomes, i);
      }
      HighestAgrees(batch, outcomes, ack.accepted);
    }
  }

  // ---- The transaction in place ----------------------------------------------------------------------------------

  class Database {
    var messages: map<RowKey, Row>
    var jobs: set<RowKey>
    var alerts: map<AlertKey, AlertRow>
    var deliveries: seq<Delivery>
    var highest: map<NodeKey, nat>

    function Contents(): Tables
      reads this
    {
      Tables(messages, jobs, alerts, deliveries, highest)
    }

    constructor ()
      ensures Contents() == EMPTY
    {
      messages, jobs, alerts, deliveries, highest := map[], {}, map[], [], map[];
    }

    method MaterializeAlert(nk: NodeKey, a: ProcessAlert, destinations: seq<string>)
      modifies this
      ensures Contents() == Materialize(old(Contents()), nk, a, destinations)
    {
      var key, micros := AlertKey(nk.tenant, a.instanceId), a.observedNs / 1000;
      if key in alerts {
        alerts := alerts[key := alerts[key].(payload := a, lastTransition := micros)];
      } else {
        alerts := alerts[key := AlertRow(nk.node, a.ruleId, a, micros, micros)];
      }
      if a.state == "firing" {
        for i := 0 to |destinations|
          invariant messages == old(messages) && jobs == old(jobs) && highest == old(highest)
          invariant alerts == Upsert(old(alerts), nk, a)
          invariant deliveries == old(deliveries)
                    + seq(i, j requires 0 <= j < i => Delivery(key, destinations[j]))
        {
          deliveries := deliveries + [Delivery(key, destinations[i])];
        }
      }
    }

    method InsertEnvelope(nk: NodeKey, e: Envelope, destinations: seq<string>) returns (outcome: Result<Outcome, ApiError>)
      modifies this
      ensures match Insert(old(Contents()), nk, e, destinations)
              case Err(error) => outcome == Err(error)
              case Ok((after, o)) => outcome == Ok(o) && Contents() == after
    {
      hide Upsert, ReasonableTime;
      if !Storable(e) {
        return Err(Invalid);
      }
      var key := RowKey(nk, e.messageId);
      if IsFresh(Contents(), nk, e) {
        messages := messages[key := Row(e, Some(Sha256(e)))];
        if e.kind == ProcessAlertKind {
          if !AcceptableAlert(e.payload) {
            return Err(Invalid);
          }
          MaterializeAlert(nk, e.payload.alert, destinations);
        }
        if e.kind != Health {
          jobs := jobs + {key};
        }
        return Ok(Accepted);
      }
      if key !in messages {
        return Ok(SequenceConflict);
      }
      var row := messages[key];
      if row.digest == Some(Sha256(e)) {
        return Ok(Accepted);
      }
      if row.digest.None? && row.envelope == e {
        messages := messages[key := row.(digest := Some(Sha256(e)))];
        return Ok(Accepted);
      }
      outcome := Ok(ReplayConflict);
    }

    method Restore(saved: Tables)
      modifies this
      ensures Contents() == saved
    {
      messages, jobs, alerts, deliveries, highest :=
        saved.messages, saved.jobs, saved.alerts, saved.deliveries, saved.highest;
    }

    method IngestBatch(identity: Option<NodeKey>, admitted: bool, batch: seq<Envelope>, destinations: seq<string>)
        returns (reply: Result<Ack, ApiError>)
      modifies this
      ensures (Contents(), reply) == Ingest(old(Contents()), identity, admitted, batch, destinations)
    {
      hide Insert, ValidBatch, Process, AcceptedIds, RejectedRecords, HighestAccepted;
      if !ValidBatch(batch) {
        return Err(Invalid);
      }
      if identity.None? {
        return Err(Unauthorized);
      }
      var nk := identity.value;
      if exists e | e in batch :: e.nodeId != nk.node {
        return Err(Invalid);
      }
      if !admitted {
        return Err(Saturated);
      }
      var saved := Contents();
      var accepted, rejected, top := [], [], None;
      ghost var outcomes: seq<Outcome> := [];
      NothingProcessed(saved, nk, batch, destinations);
      for i := 0 to |batch|
        invariant Process(saved, nk, batch[..i], destinations) == Ok((Contents(), outcomes)) && |outcomes| == i
        invariant accepted == AcceptedIds(batch[..i], outcomes) && rejected == RejectedRecords(batch[..i], outcomes)
        invariant top == HighestAccepted(batch[..i], outcomes)
      {
        var e := batch[i];
        ProcessOne(saved, nk, batch, destinations, i);
        var outcome := InsertEnvelope(nk, e, destinations);
        if outcome.Err? {
          Restore(saved);
          ProcessFails(saved, nk, batch, destinations, i + 1);
          return Err(outcome.error);
        }
        match outcome.value {
          case Accepted =>
            accepted, top := accepted + [e.messageId], MaxOption(top, e.sequence);
          case SequenceConflict =>
            rejected := rejected + [Rejected(e.messageId, "sequence_conflict")];
          case ReplayConflict =>
            rejected := rejected + [Rejected(e.messageId, "message_id_content_conflict")];
        }
        ReplyOne(batch, outcomes, i, outcome.value);
        outcomes := outcomes + [outcome.value];
      }
      assert batch[..|batch|] == batch;
      if top.Some? {
        highest := highest[nk := if nk in highest && highest[nk] >= top.value then highest[nk] else top.value];
      }
      reply := Ok(Ack(accepted, top, rejected, None));
    }
  }

  lemma NothingProcessed(db: Tables, nk: NodeKey, batch: seq<Envelope>, destinations: seq<string>)
    ensures Process(db, nk, batch[..0], destinations) == Ok((db, []))
    ensures AcceptedIds(batch[..0], []) == [] && RejectedRecords(batch[..0], []) == []
    ensures HighestAccepted(batch[..0], []) == None
  {
  }

  lemma ProcessOne(db: Tables, nk: NodeKey, batch: seq<Envelope>, destinations: seq<string>, i: nat)
    requires i < |batch| && Process(db, nk, batch[..i], destinations).Ok?
    ensures var (before, outcomes) := Process(db, nk, batch[..i], destinations).value;
            Process(db, nk, batch[..i + 1], destinations)
            == match Insert(before, nk, batch[i], destinations)
               case Err(error) => Err(error)
               case Ok((after, o)) => Ok((after, outcomes + [o]))
  {
    assert batch[..i + 1][..i] == batch[..i];
  }

  lemma ReplyOne(batch: seq<Envelope>, outcomes: seq<Outcome>, i: nat, o: Outcome)
    requires |outcomes| == i < |batch|
    ensures var (b, os, id) := (batch[..i + 1], outcomes + [o], batch[i].messageId);
            && AcceptedIds(b, os) == AcceptedIds(batch[..i], outcomes) + (if o.Accepted? then [id] else [])
            && RejectedRecords(b, os)
               == RejectedRecords(batch[..i], outcomes) + (if o.Accepted? then [] else [Rejected(id, Reason(o))])
            && HighestAccepted(b, os)
               == if o.Accepted? then MaxOption(HighestAccepted(batch[..i], outcomes), batch[i].sequence)
                  else HighestAccepted(batch[..i], outcomes)
  {
    assert batch[..i + 1][..i] == batch[..i] && (outcomes + [o])[..i] == outcomes;
  }

  lemma {:induction false} ProcessFails(db: Tables, nk: NodeKey, batch: seq<Envelope>, destinations: seq<string>, i: nat)
    requires i <= |batch| && Process(db, nk, batch[..i], destinations).Err?
    ensures Process(db, nk, batch, destinations) == Process(db, nk, batch[..i], destinations)
    decreases |batch|
  {
    if i < |batch| {
      var front := batch[..|batch| - 1];
      assert front[..i] == batch[..i];
      ProcessFails(db, nk, front, destinations, i);
    } else {
      assert batch[..i] == batch;
    }
  }
}
