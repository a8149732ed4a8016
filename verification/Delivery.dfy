/** The telemetry delivery protocol: publishers, spool, export worker, network and collector
    (src/spool.rs, src/distributed.rs, crates/syspilot-cloud/src/lib.rs) as one step system.

    Requests may be lost, repeated and served late; replies may be lost; the agent may crash between
    any two file operations.  `log` is history: every record whose append succeeded, in order. */
module Delivery {
  import opened Prelude
  import opened Telemetry
  import opened Acknowledgement
  import opened Spool
  import opened Collector

  type Publisher = nat

  /** The node's identity, and the one thread that publishes process alerts. */
  datatype Config = Config(nk: NodeKey, alertPublisher: Publisher)

  datatype Entry = Entry(publisher: Publisher, envelope: Envelope)

  datatype Worker = Idle | Holding(batch: seq<Envelope>) | Removing(todo: seq<Envelope>)

  datatype State = State(
    lastSequence: nat,
    drawn: map<Publisher, nat>,
    spool: map<nat, Envelope>,
    quarantine: set<Envelope>,
    worker: Worker,
    sent: set<seq<Envelope>>,
    replies: set<(seq<Envelope>, Ack)>,
    db: Tables,
    log: seq<Entry>)

  const START := State(0, map[], map[], {}, Idle, {}, {}, Collector.EMPTY, [])

  datatype Step =
    | Draw(publisher: Publisher)
    | Append(publisher: Publisher, observedNs: nat, kind: Kind, payload: Payload, attributes: map<string, string>)
    | AbandonAppend(publisher: Publisher)
    | Read(limit: nat, keys: seq<nat>, unreadable: set<nat>)
    | Send
    | ServeRequest(batch: seq<Envelope>, destinations: seq<string>)
    | Receive(ack: Ack)
    | Remove
    | GiveUp
    | Crash

  function Built(c: Config, sequence: nat, observedNs: nat, kind: Kind, payload: Payload, attributes: map<string, string>)
      : Envelope
  {
    Envelope(SCHEMA_VERSION, MessageId(c.nk.node, observedNs, sequence), c.nk.node, sequence, observedNs, kind,
             payload, attributes)
  }

  /** The readable records among `keys`, in order. */
  function Batch(spool: map<nat, Envelope>, keys: seq<nat>, unreadable: set<nat>): seq<Envelope>
    requires forall k | k in keys :: k in spool
  {
    if keys == [] then [] else
    var last := keys[|keys| - 1];
    Batch(spool, keys[..|keys| - 1], unreadable) + if last in unreadable then [] else [spool[last]]
  }

  /** The submitted records the acknowledgement accepts. */
  function AcceptedOf(batch: seq<Envelope>, ack: Ack): seq<Envelope> {
    if batch == [] then [] else
    var last := batch[|batch| - 1];
    AcceptedOf(batch[..|batch| - 1], ack) + if last.messageId in ack.accepted then [last] else []
  }

  ghost predicate Enabled(c: Config, s: State, step: Step) {
    match step
    case Draw(p) => p !in s.drawn && s.lastSequence < MAX_U64
    case Append(p, observedNs, kind, payload, attributes) =>
      && p in s.drawn && s.drawn[p] !in s.spool
      && ValidEnvelope(Built(c, s.drawn[p], observedNs, kind, payload, attributes))
      && (kind == ProcessAlertKind ==> p == c.alertPublisher)
    case AbandonAppend(p) => p in s.drawn
    case Read(limit, keys, unreadable) =>
      s.worker.Idle? && Picked(s.spool, limit, keys) && forall k | k in unreadable :: k in keys
    case Send => s.worker.Holding?
    case ServeRequest(batch, _) => batch in s.sent
    case Receive(ack) => s.worker.Holding? && (s.worker.batch, ack) in s.replies
    case Remove => s.worker.Removing?
    case GiveUp => s.worker.Holding?
    case Crash => true
  }

  ghost function Next(c: Config, s: State, step: Step): State
    requires Enabled(c, s, step)
  {
    match step
    case Draw(p) =>
      s.(lastSequence := s.lastSequence + 1, drawn := s.drawn[p := s.lastSequence + 1])
    case Append(p, observedNs, kind, payload, attributes) =>
      var e := Built(c, s.drawn[p], observedNs, kind, payload, attributes);
      s.(spool := s.spool[e.sequence := e], log := s.log + [Entry(p, e)], drawn := s.drawn - {p})
    case AbandonAppend(p) => s.(drawn := s.drawn - {p})
    case Read(_, keys, unreadable) =>
      var batch := Batch(s.spool, keys, unreadable);
      s.(spool := s.spool - unreadable,
         quarantine := s.quarantine + (set k | k in unreadable :: s.spool[k]),
         worker := if batch == [] then Idle else Holding(batch))
    case Send => s.(sent := s.sent + {s.worker.batch})
    case ServeRequest(batch, destinations) =>
      var (db, reply) := Ingest(s.db, Some(c.nk), true, batch, destinations);
      s.(db := db, replies := if reply.Ok? then s.replies + {(batch, reply.value)} else s.replies)
    case Receive(ack) =>
      if Trustworthy(ack, s.worker.batch) then s.(worker := Removing(AcceptedOf(s.worker.batch, ack))) else s
    case Remove =>
      if s.worker.todo == [] || s.worker.todo[0].sequence !in s.spool then s.(worker := Idle)
      else s.(spool := s.spool - {s.worker.todo[0].sequence}, worker := Removing(s.worker.todo[1..]))
    case GiveUp => s.(worker := Idle)
    case Crash => s.(worker := Idle, drawn := map[])
  }

  ghost function Run(c: Config, steps: seq<Step>): State {
    if steps == [] then START else
    var s := Run(c, steps[..|steps| - 1]);
    var step := steps[|steps| - 1];
    if Enabled(c, s, step) then Next(c, s, step) else s
  }

  // ---- The history --------------------------------------------------------------------------------------

  ghost predicate EntrySound(c: Config, x: Entry) {
    var e := x.envelope;
    && ValidEnvelope(e) && e.nodeId == c.nk.node && e.messageId == MessageId(c.nk.node, e.observedNs, e.sequence)
    && e.sequence > 0
    && (e.kind == ProcessAlertKind ==> x.publisher == c.alertPublisher)
  }

  /** No sequence number is used twice, and each publisher's records are numbered in order. */
  ghost predicate LogSound(c: Config, log: seq<Entry>) {
    && (forall i | 0 <= i < |log| :: EntrySound(c, log[i]))
    && (forall i, j | 0 <= i < j < |log| :: log[i].envelope.sequence != log[j].envelope.sequence)
    && (forall i, j | 0 <= i < j < |log| && log[i].publisher == log[j].publisher ::
          log[i].envelope.sequence < log[j].envelope.sequence)
  }

  ghost predicate InLog(log: seq<Entry>, e: Envelope) {
    exists i :: 0 <= i < |log| && log[i].envelope == e
  }

  /** The numbers drawn and not yet used are new. */
  ghost predicate DrawnSound(s: State) {
    && s.lastSequence < TWO_64
    && (forall i | 0 <= i < |s.log| :: s.log[i].envelope.sequence <= s.lastSequence)
    && (forall p | p in s.drawn :: 0 < s.drawn[p] <= s.lastSequence)
    && (forall p, q | p in s.drawn && q in s.drawn && s.drawn[p] == s.drawn[q] :: p == q)
    && (forall p, i | p in s.drawn && 0 <= i < |s.log| ::
          && s.log[i].envelope.sequence != s.drawn[p]
          && (s.log[i].publisher == p ==> s.log[i].envelope.sequence < s.drawn[p]))
  }

  lemma SameSequence(c: Config, log: seq<Entry>, a: Envelope, b: Envelope)
    requires LogSound(c, log) && InLog(log, a) && InLog(log, b) && a.sequence == b.sequence
    ensures a == b
  {
    var i :| 0 <= i < |log| && log[i].envelope == a;
    var j :| 0 <= j < |log| && log[j].envelope == b;
    assert i == j;
  }

  lemma SameId(c: Config, log: seq<Entry>, a: Envelope, b: Envelope)
    requires LogSound(c, log) && InLog(log, a) && InLog(log, b) && a.messageId == b.messageId
    ensures a == b
  {
    hide MessageId;
    MessageIdInjective(c.nk.node, a.observedNs, a.sequence, b.observedNs, b.sequence);
    SameSequence(c, log, a, b);
  }

  // ---- The collector, fed from the history -----------------------------------------------------------------

  /** Every stored message is one of the history, with its digest. */
  ghost predicate FromLog(c: Config, log: seq<Entry>, db: Tables) {
    && RowsSound(db)
    && forall k | k in db.messages :: k.node == c.nk && db.messages[k].digest.Some? && InLog(log, db.messages[k].envelope)
  }

  /** A record of the history conflicts with nothing but its own replay. */
  lemma FreshUnlessCommitted(c: Config, log: seq<Entry>, db: Tables, e: Envelope)
    requires LogSound(c, log) && FromLog(c, log, db) && InLog(log, e)
    ensures IsFresh(db, c.nk, e) <==> !Committed(db, c.nk, e)
    ensures !IsFresh(db, c.nk, e) ==> Replayed(db, c.nk, e) == (db, Accepted)
  {
    hide LogSound;
    var key := RowKey(c.nk, e.messageId);
    if key in db.messages {
      SameId(c, log, db.messages[key].envelope, e);
    } else if SequenceTaken(db, c.nk, e.sequence) {
      var k :| k in db.messages && k.node == c.nk && db.messages[k].envelope.sequence == e.sequence;
      SameSequence(c, log, db.messages[k].envelope, e);
    }
  }

  /** Inserting a record of the history either fails outright or accepts it and commits just it. */
  lemma InsertFromLog(c: Config, log: seq<Entry>, db: Tables, e: Envelope, destinations: seq<string>)
    requires LogSound(c, log) && FromLog(c, log, db) && InLog(log, e)
    requires Insert(db, c.nk, e, destinations).Ok?
    ensures var (db', o) := Insert(db, c.nk, e, destinations).value;
            && o == Accepted && FromLog(c, log, db')
            && (e.kind == ProcessAlertKind && !Committed(db, c.nk, e) ==> e.payload.AlertPayload?)
            && (forall x :: Committed(db', c.nk, x) <==> Committed(db, c.nk, x) || x == e)
            && db'.alerts == (if Committed(db, c.nk, e) || e.kind != ProcessAlertKind then db.alerts
                              else Upsert(db.alerts, c.nk, e.payload.alert))
  {
    hide LogSound, RowsSound, Upsert, InLog, Storable, IsFresh, Replayed, ReasonableTime, IsBlank;
    FreshUnlessCommitted(c, log, db, e);
    InsertSound(db, c.nk, e, destinations);
    if !Committed(db, c.nk, e) {
      AddedEffects(db, c.nk, e, destinations);
      NotStored(c, log, db, e);
    }
  }

  lemma NotStored(c: Config, log: seq<Entry>, db: Tables, e: Envelope)
    requires LogSound(c, log) && FromLog(c, log, db) && InLog(log, e) && !Committed(db, c.nk, e)
    ensures RowKey(c.nk, e.messageId) !in db.messages
  {
    FreshUnlessCommitted(c, log, db, e);
  }

  // ---- Order -------------------------------------------------------------------------------------------------

  /** Done with, as far as the agent is concerned. */
  ghost predicate Safe(c: Config, db: Tables, quarantine: set<Envelope>, e: Envelope) {
    Committed(db, c.nk, e) || e in quarantine
  }

  ghost predicate Earlier(log: seq<Entry>, i: nat, j: nat) {
    i < j < |log| && log[i].publisher == log[j].publisher
  }

  /** What a publisher appended before a committed record is itself committed, or in quarantine. */
  ghost predicate InOrder(c: Config, log: seq<Entry>, quarantine: set<Envelope>, db: Tables) {
    forall i: nat, j: nat | Earlier(log, i, j) && Committed(db, c.nk, log[j].envelope) ::
      Safe(c, db, quarantine, log[i].envelope)
  }

  /** A batch a worker may send: records of the history in ascending order, leaving out no earlier
      record of the same publisher that is not done with. */
  ghost predicate Closed(c: Config, log: seq<Entry>, quarantine: set<Envelope>, db: Tables, batch: seq<Envelope>) {
    && (forall i, j | 0 <= i < j < |batch| :: batch[i].sequence < batch[j].sequence)
    && (forall e | e in batch :: InLog(log, e))
    && (forall i: nat, j: nat | Earlier(log, i, j) && log[j].envelope in batch ::
          log[i].envelope in batch || Safe(c, db, quarantine, log[i].envelope))
  }

  /** The alerts of the history that are committed, in order. */
  function CommittedAlerts(c: Config, log: seq<Entry>, db: Tables): seq<ProcessAlert> {
    if log == [] then [] else
    var e := log[|log| - 1].envelope;
    CommittedAlerts(c, log[..|log| - 1], db)
    + if e.kind == ProcessAlertKind && e.payload.AlertPayload? && Committed(db, c.nk, e) then [e.payload.alert] else []
  }

  /** The alert table one gets by applying alerts one after another. */
  function ReplayAlerts(nk: NodeKey, alerts: seq<ProcessAlert>): map<AlertKey, AlertRow> {
    if alerts == [] then map[] else
    Upsert(ReplayAlerts(nk, alerts[..|alerts| - 1]), nk, alerts[|alerts| - 1])
  }

  ghost predicate NoAlertIn(quarantine: set<Envelope>) {
    forall e | e in quarantine :: e.kind != ProcessAlertKind
  }

  /** Every alert published before a committed one is committed. */
  ghost predicate AlertsInOrder(c: Config, log: seq<Entry>, db: Tables) {
    forall i: nat, j: nat | Earlier(log, i, j) && log[i].envelope.kind == ProcessAlertKind
                            && log[j].envelope.kind == ProcessAlertKind && Committed(db, c.nk, log[j].envelope) ::
      Committed(db, c.nk, log[i].envelope)
  }

  lemma OrderOfAlerts(c: Config, log: seq<Entry>, quarantine: set<Envelope>, db: Tables)
    requires InOrder(c, log, quarantine, db) && NoAlertIn(quarantine)
    ensures AlertsInOrder(c, log, db)
  {
    hide Committed;
    forall i: nat, j: nat | Earlier(log, i, j) && log[i].envelope.kind == ProcessAlertKind
                            && log[j].envelope.kind == ProcessAlertKind && Committed(db, c.nk, log[j].envelope)
      ensures Committed(db, c.nk, log[i].envelope)
    {
      assert Safe(c, db, quarantine, log[i].envelope);
    }
  }

  /** The collector's alert table is the replay of the committed alerts in publication order. */
  ghost predicate AlertsReplayed(c: Config, log: seq<Entry>, quarantine: set<Envelope>, db: Tables) {
    NoAlertIn(quarantine) ==> db.alerts == ReplayAlerts(c.nk, CommittedAlerts(c, log, db))
  }

  lemma {:induction false} CommittedAlertsSame(c: Config, log: seq<Entry>, db: Tables, db': Tables)
    requires forall i | 0 <= i < |log| && log[i].envelope.kind == ProcessAlertKind ::
               Committed(db', c.nk, log[i].envelope) <==> Committed(db, c.nk, log[i].envelope)
    ensures CommittedAlerts(c, log, db') == CommittedAlerts(c, log, db)
  {
    hide Committed;
    if log != [] {
      assert forall i | 0 <= i < |log| - 1 :: log[..|log| - 1][i] == log[i];
      CommittedAlertsSame(c, log[..|log| - 1], db, db');
    }
  }

  /** Committing the first alert that was not yet committed appends it. */
  lemma {:induction false} CommittedAlertsGrow(c: Config, log: seq<Entry>, db: Tables, db': Tables, j: nat)
    requires j < |log| && log[j].envelope.kind == ProcessAlertKind && log[j].envelope.payload.AlertPayload?
    requires forall i | 0 <= i < |log| && log[i].envelope.kind == ProcessAlertKind && i != j ::
               Committed(db', c.nk, log[i].envelope) <==> Committed(db, c.nk, log[i].envelope)
    requires !Committed(db, c.nk, log[j].envelope) && Committed(db', c.nk, log[j].envelope)
    requires forall i | j < i < |log| && log[i].envelope.kind == ProcessAlertKind :: !Committed(db, c.nk, log[i].envelope)
    ensures CommittedAlerts(c, log, db') == CommittedAlerts(c, log, db) + [log[j].envelope.payload.alert]
    decreases |log|
  {
    hide Committed;
    var front := log[..|log| - 1];
    assert forall i | 0 <= i < |front| :: front[i] == log[i];
    if j == |log| - 1 {
      CommittedAlertsSame(c, front, db, db');
    } else {
      CommittedAlertsGrow(c, front, db, db', j);
    }
  }

  /** One record of a closed batch, with those before it already committed. */
  lemma InsertInOrder(c: Config, log: seq<Entry>, q: set<Envelope>, db: Tables, e: Envelope, destinations: seq<string>)
    requires LogSound(c, log) && FromLog(c, log, db) && InLog(log, e)
    requires InOrder(c, log, q, db) && AlertsReplayed(c, log, q, db)
    requires forall i: nat, j: nat | Earlier(log, i, j) && log[j].envelope == e :: Safe(c, db, q, log[i].envelope)
    requires Insert(db, c.nk, e, destinations).Ok?
    ensures var db' := Insert(db, c.nk, e, destinations).value.0;
            InOrder(c, log, q, db') && AlertsReplayed(c, log, q, db')
  {
    hide LogSound, FromLog, InLog, Upsert, Insert, Committed, CommittedAlerts, ReplayAlerts, AlertsInOrder, NoAlertIn;
    InsertFromLog(c, log, db, e, destinations);
    var db' := Insert(db, c.nk, e, destinations).value.0;
    if NoAlertIn(q) {
      OrderOfAlerts(c, log, q, db);
      if Committed(db, c.nk, e) || e.kind != ProcessAlertKind {
        CommittedAlertsSame(c, log, db, db');
      } else {
        AlertAppended(c, log, db, db', e);
        ReplayOneMore(c.nk, CommittedAlerts(c, log, db), e.payload.alert);
      }
    }
  }

  lemma ReplayOneMore(nk: NodeKey, alerts: seq<ProcessAlert>, a: ProcessAlert)
    ensures ReplayAlerts(nk, alerts + [a]) == Upsert(ReplayAlerts(nk, alerts), nk, a)
  {
    assert (alerts + [a])[..|alerts|] == alerts;
  }

  lemma AlertAppended(c: Config, log: seq<Entry>, db: Tables, db': Tables, e: Envelope)
    requires LogSound(c, log) && InLog(log, e) && e.kind == ProcessAlertKind && e.payload.AlertPayload?
    requires AlertsInOrder(c, log, db) && !Committed(db, c.nk, e)
    requires forall x :: Committed(db', c.nk, x) <==> Committed(db, c.nk, x) || x == e
    ensures CommittedAlerts(c, log, db') == CommittedAlerts(c, log, db) + [e.payload.alert]
  {
    hide Committed;
    var j: nat :| j < |log| && log[j].envelope == e;
    forall i | j < i < |log| && log[i].envelope.kind == ProcessAlertKind
      ensures !Committed(db, c.nk, log[i].envelope)
    {
      assert EntrySound(c, log[i]) && EntrySound(c, log[j]);
      assert Earlier(log, j, i);
    }
    CommittedAlertsGrow(c, log, db, db', j);
  }

  ghost predicate AllCommitted(c: Config, db: Tables, batch: seq<Envelope>) {
    forall e | e in batch :: Committed(db, c.nk, e)
  }

  /** A closed batch is processed without a single conflict, in publication order. */
  lemma {:induction false} ProcessClosed(
    c: Config, log: seq<Entry>, q: set<Envelope>, db: Tables, batch: seq<Envelope>, n: nat, destinations: seq<string>)
    requires LogSound(c, log) && FromLog(c, log, db) && Closed(c, log, q, db, batch)
    requires InOrder(c, log, q, db) && AlertsReplayed(c, log, q, db)
    requires n <= |batch| && Process(db, c.nk, batch[..n], destinations).Ok?
    ensures var (db', outcomes) := Process(db, c.nk, batch[..n], destinations).value;
            && FromLog(c, log, db') && InOrder(c, log, q, db') && AlertsReplayed(c, log, q, db')
            && (forall o | o in outcomes :: o == Accepted)
            && (forall x :: Committed(db', c.nk, x) <==> Committed(db, c.nk, x) || x in batch[..n])
    decreases n
  {
    hide LogSound, FromLog, InOrder, AlertsReplayed, Insert, Committed, InLog;
    if n > 0 {
      var e := batch[n - 1];
      assert batch[..n][..n - 1] == batch[..n - 1] && batch[..n] == batch[..n - 1] + [e];
      ProcessClosed(c, log, q, db, batch, n - 1, destinations);
      var before := Process(db, c.nk, batch[..n - 1], destinations).value.0;
      forall i: nat, j: nat | Earlier(log, i, j) && log[j].envelope == e
        ensures Safe(c, before, q, log[i].envelope)
      {
        if log[i].envelope in batch {
          EarlierInBatch(c, log, batch, n - 1, i, j);
        }
      }
      InsertInOrder(c, log, q, before, e, destinations);
      InsertFromLog(c, log, before, e, destinations);
    }
  }

  lemma EarlierInBatch(c: Config, log: seq<Entry>, batch: seq<Envelope>, n: nat, i: nat, j: nat)
    requires LogSound(c, log) && Earlier(log, i, j) && n < |batch| && log[j].envelope == batch[n]
    requires forall a, b | 0 <= a < b < |batch| :: batch[a].sequence < batch[b].sequence
    requires log[i].envelope in batch
    ensures log[i].envelope in batch[..n]
  {
    var k :| 0 <= k < |batch| && batch[k] == log[i].envelope;
    assert batch[k].sequence < batch[n].sequence;
    assert k < n && batch[..n][k] == batch[k];
  }

  /** Serving a closed batch: all of it is committed or none, and the reply accepts all of it. */
  lemma IngestClosed(c: Config, log: seq<Entry>, q: set<Envelope>, db: Tables, batch: seq<Envelope>, destinations: seq<string>)
    requires LogSound(c, log) && FromLog(c, log, db) && HighestExact(db) && Closed(c, log, q, db, batch)
    requires InOrder(c, log, q, db) && AlertsReplayed(c, log, q, db)
    ensures var (db', reply) := Ingest(db, Some(c.nk), true, batch, destinations);
            && FromLog(c, log, db') && HighestExact(db') && InOrder(c, log, q, db') && AlertsReplayed(c, log, q, db')
            && (reply.Err? ==> db' == db)
            && (reply.Ok? ==> reply.value.rejected == [] && Trustworthy(reply.value, batch)
                              && forall x :: Committed(db', c.nk, x) <==> Committed(db, c.nk, x) || x in batch)
  {
    hide LogSound, InLog, Committed, CommittedAlerts, ReplayAlerts, RowsSound, HighestExact, Process, Trustworthy,
      ValidBatch, AcceptedIds, HighestAccepted;
    var (db', reply) := Ingest(db, Some(c.nk), true, batch, destinations);
    IngestSound(db, Some(c.nk), true, batch, destinations);
    if reply.Ok? {
      assert batch[..|batch|] == batch;
      ProcessClosed(c, log, q, db, batch, |batch|, destinations);
      var (processed, outcomes) := Process(db, c.nk, batch, destinations).value;
      NoneRejected(batch, outcomes);
      assert |batch| > 0 by { assert ValidBatch(batch); NonEmpty(batch); }
      DistinctIds(c, log, q, db, batch);
      ReplyTrustedExactly(batch, outcomes);
      RaiseKeepsOrder(c, log, q, processed, HighestAccepted(batch, outcomes));
    }
  }

  lemma NonEmpty(batch: seq<Envelope>)
    requires ValidBatch(batch)
    ensures |batch| > 0
  {
  }

  lemma {:induction false} NoneRejected(batch: seq<Envelope>, outcomes: seq<Outcome>)
    requires |outcomes| == |batch| && forall o | o in outcomes :: o == Accepted
    ensures RejectedRecords(batch, outcomes) == []
  {
    if batch != [] {
      var n := |batch| - 1;
      assert outcomes[n] in outcomes && forall o | o in outcomes[..n] :: o in outcomes;
      NoneRejected(batch[..n], outcomes[..n]);
    }
  }

  lemma DistinctIds(c: Config, log: seq<Entry>, q: set<Envelope>, db: Tables, batch: seq<Envelope>)
    requires LogSound(c, log) && Closed(c, log, q, db, batch)
    ensures NoDup(Ids(batch))
  {
    hide LogSound, InLog;
    forall i, j | 0 <= i < j < |batch|
      ensures Ids(batch)[i] != Ids(batch)[j]
    {
      if batch[i].messageId == batch[j].messageId {
        SameId(c, log, batch[i], batch[j]);
      }
    }
  }

  /** Recording the highest sequence touches neither messages nor alerts. */
  lemma RaiseKeepsOrder(c: Config, log: seq<Entry>, q: set<Envelope>, db: Tables, top: Option<nat>)
    ensures var raised := Raise(db, c.nk, top);
            && (forall x :: Committed(raised, c.nk, x) <==> Committed(db, c.nk, x))
            && (FromLog(c, log, db) ==> FromLog(c, log, raised))
            && (InOrder(c, log, q, db) ==> InOrder(c, log, q, raised))
            && (AlertsReplayed(c, log, q, db) ==> AlertsReplayed(c, log, q, raised))
  {
    hide InLog, ReplayAlerts;
    var raised := Raise(db, c.nk, top);
    CommittedAlertsSame(c, log, db, raised);
  }

  // ---- The invariant ---------------------------------------------------------------------------------------

  ghost predicate SpoolSound(s: State) {
    forall k | k in s.spool :: s.spool[k].sequence == k && InLog(s.log, s.spool[k])
  }

  /** Each appended record is in the spool, in quarantine or committed. */
  ghost predicate NothingLost(c: Config, s: State) {
    forall i | 0 <= i < |s.log| ::
      var e := s.log[i].envelope;
      (e.sequence in s.spool && s.spool[e.sequence] == e) || Safe(c, s.db, s.quarantine, e)
  }

  ghost predicate WorkerSound(c: Config, s: State) {
    match s.worker
    case Idle => true
    case Holding(batch) => Closed(c, s.log, s.quarantine, s.db, batch)
    case Removing(todo) => AllCommitted(c, s.db, todo) && forall e | e in todo :: InLog(s.log, e)
  }

  /** An acknowledged record is committed. */
  ghost predicate ReplySound(c: Config, db: Tables, reply: (seq<Envelope>, Ack)) {
    forall e | e in reply.0 && e.messageId in reply.1.accepted :: Committed(db, c.nk, e)
  }

  ghost predicate NetworkSound(c: Config, s: State) {
    && (forall batch | batch in s.sent :: Closed(c, s.log, s.quarantine, s.db, batch))
    && (forall reply | reply in s.replies :: ReplySound(c, s.db, reply))
  }

  ghost predicate CollectorSound(c: Config, s: State) {
    && FromLog(c, s.log, s.db) && HighestExact(s.db)
    && InOrder(c, s.log, s.quarantine, s.db) && AlertsReplayed(c, s.log, s.quarantine, s.db)
  }

  ghost predicate Inv(c: Config, s: State) {
    && LogSound(c, s.log) && DrawnSound(s) && SpoolSound(s) && NothingLost(c, s)
    && WorkerSound(c, s) && NetworkSound(c, s) && CollectorSound(c, s)
  }

  /** A batch stays closed as records become committed or quarantined. */
  lemma ClosedPersists(c: Config, log: seq<Entry>, q: set<Envelope>, db: Tables, q': set<Envelope>, db': Tables, batch: seq<Envelope>)
    requires Closed(c, log, q, db, batch) && q <= q'
    requires forall x :: Committed(db, c.nk, x) ==> Committed(db', c.nk, x)
    ensures Closed(c, log, q', db', batch)
  {
    hide Committed, InLog;
    forall i: nat, j: nat | Earlier(log, i, j) && log[j].envelope in batch
      ensures log[i].envelope in batch || Safe(c, db', q', log[i].envelope)
    {
      assert log[i].envelope in batch || Safe(c, db, q, log[i].envelope);
    }
  }

  lemma InLogPersists(log: seq<Entry>, x: Entry, e: Envelope)
    requires InLog(log, e)
    ensures InLog(log + [x], e)
  {
    var i :| 0 <= i < |log| && log[i].envelope == e;
    assert (log + [x])[i].envelope == e;
  }

  /** A new record, numbered above all of its publisher's, closes every old batch as before. */
  lemma ClosedUnderAppend(c: Config, log: seq<Entry>, x: Entry, q: set<Envelope>, db: Tables, batch: seq<Envelope>)
    requires Closed(c, log, q, db, batch) && LogSound(c, log + [x])
    ensures Closed(c, log + [x], q, db, batch)
  {
    hide Committed, InLog, LogSound;
    var log' := log + [x];
    forall e | e in batch
      ensures InLog(log', e)
    {
      InLogPersists(log, x, e);
    }
    if x.envelope in batch {
      NewEntryIsNew(c, log, x);
    }
    forall i: nat, j: nat | Earlier(log', i, j) && log'[j].envelope in batch
      ensures log'[i].envelope in batch || Safe(c, db, q, log'[i].envelope)
    {
      assert j < |log| && log'[i] == log[i] && log'[j] == log[j] && Earlier(log, i, j);
    }
  }

  lemma NewEntryIsNew(c: Config, log: seq<Entry>, x: Entry)
    requires LogSound(c, log + [x])
    ensures !InLog(log, x.envelope)
  {
    forall i | 0 <= i < |log|
      ensures log[i].envelope != x.envelope
    {
      assert (log + [x])[i].envelope.sequence != (log + [x])[|log|].envelope.sequence;
    }
  }

  lemma AppendLog(c: Config, s: State, step: Step)
    requires LogSound(c, s.log) && DrawnSound(s) && step.Append? && Enabled(c, s, step)
    ensures LogSound(c, Next(c, s, step).log) && DrawnSound(Next(c, s, step))
  {
    hide MessageId, Picked;
    var s' := Next(c, s, step);
    var n := |s.log|;
    assert forall i | 0 <= i < n :: s'.log[i] == s.log[i];
    assert EntrySound(c, s'.log[n]);
  }

  lemma AppendCollector(c: Config, s: State, x: Entry)
    requires LogSound(c, s.log + [x]) && CollectorSound(c, s)
    ensures CollectorSound(c, s.(log := s.log + [x]))
  {
    hide LogSound, HighestExact, RowsSound, InLog, ReplayAlerts;
    var log' := s.log + [x];
    forall k | k in s.db.messages
      ensures InLog(log', s.db.messages[k].envelope)
    {
      InLogPersists(s.log, x, s.db.messages[k].envelope);
    }
    NewEntryIsNew(c, s.log, x);
    assert !Committed(s.db, c.nk, x.envelope);
    assert log'[..|s.log|] == s.log;
    var alerts := CommittedAlerts(c, s.log, s.db);
    assert CommittedAlerts(c, log', s.db) == alerts + [] == alerts;
    forall i: nat, j: nat | Earlier(log', i, j) && Committed(s.db, c.nk, log'[j].envelope)
      ensures Safe(c, s.db, s.quarantine, log'[i].envelope)
    {
      assert Earlier(s.log, i, j);
    }
  }

  lemma AppendKeepsInv(c: Config, s: State, step: Step)
    requires Inv(c, s) && step.Append? && Enabled(c, s, step)
    ensures Inv(c, Next(c, s, step))
  {
    hide LogSound, DrawnSound, InLog, Closed, CollectorSound, Committed, MessageId, ValidEnvelope, Picked;
    var s' := Next(c, s, step);
    AppendLog(c, s, step);
    var x := s'.log[|s.log|];
    assert s'.log == s.log + [x];
    AppendCollector(c, s, x);
    CollectorSame(c, s.(log := s'.log), s');
    LastInLog(s.log, x);
    forall k | k in s'.spool
      ensures s'.spool[k].sequence == k && InLog(s'.log, s'.spool[k])
    {
      if k != x.envelope.sequence {
        InLogPersists(s.log, x, s.spool[k]);
      }
    }
    NothingLostUnderAppend(c, s, s', x);
    forall batch | batch in s.sent
      ensures Closed(c, s'.log, s.quarantine, s.db, batch)
    {
      ClosedUnderAppend(c, s.log, x, s.quarantine, s.db, batch);
    }
    match s.worker {
      case Idle =>
      case Holding(batch) => ClosedUnderAppend(c, s.log, x, s.quarantine, s.db, batch);
      case Removing(todo) =>
        forall e | e in todo
          ensures InLog(s'.log, e)
        {
          InLogPersists(s.log, x, e);
        }
    }
  }

  lemma EntryInLog(log: seq<Entry>, i: nat)
    requires i < |log|
    ensures InLog(log, log[i].envelope)
  {
  }

  lemma LastInLog(log: seq<Entry>, x: Entry)
    ensures InLog(log + [x], x.envelope)
  {
    assert (log + [x])[|log|] == x;
  }

  lemma CollectorSame(c: Config, s: State, s': State)
    requires CollectorSound(c, s) && s'.db == s.db && s'.log == s.log && s'.quarantine == s.quarantine
    ensures CollectorSound(c, s')
  {
  }

  lemma NothingLostUnderAppend(c: Config, s: State, s': State, x: Entry)
    requires NothingLost(c, s) && x.envelope.sequence !in s.spool
    requires s'.log == s.log + [x] && s'.spool == s.spool[x.envelope.sequence := x.envelope]
    requires s'.db == s.db && s'.quarantine == s.quarantine
    ensures NothingLost(c, s')
  {
    hide Safe;
    forall i | 0 <= i < |s'.log|
      ensures var e := s'.log[i].envelope;
              (e.sequence in s'.spool && s'.spool[e.sequence] == e) || Safe(c, s'.db, s'.quarantine, e)
    {
      if i < |s.log| {
        assert s'.log[i] == s.log[i];
      }
    }
  }

  // ---- Reading --------------------------------------------------------------------------------------------------

  ghost predicate Chosen(spool: map<nat, Envelope>, keys: seq<nat>, unreadable: set<nat>, e: Envelope)
    requires forall k | k in keys :: k in spool
  {
    exists k :: k in keys && k !in unreadable && spool[k] == e
  }

  lemma {:induction false} BatchMembers(spool: map<nat, Envelope>, keys: seq<nat>, unreadable: set<nat>, e: Envelope)
    requires forall k | k in keys :: k in spool
    ensures e in Batch(spool, keys, unreadable) <==> Chosen(spool, keys, unreadable, e)
  {
    if keys != [] {
      var n := |keys| - 1;
      var front, last := keys[..n], keys[n];
      BatchMembers(spool, front, unreadable, e);
      ChosenLast(spool, front, last, unreadable, e);
      assert keys == front + [last];
    }
  }

  lemma ChosenLast(spool: map<nat, Envelope>, front: seq<nat>, last: nat, unreadable: set<nat>, e: Envelope)
    requires forall k | k in front + [last] :: k in spool
    requires forall k | k in front :: k in spool
    ensures last in spool
    ensures Chosen(spool, front + [last], unreadable, e)
            <==> Chosen(spool, front, unreadable, e) || (last !in unreadable && spool[last] == e)
  {
    var keys := front + [last];
    assert keys[|front|] == last && last in keys;
    if k :| k in keys && k !in unreadable && spool[k] == e {
      assert k in front || k == last;
    }
    if k :| k in front && k !in unreadable && spool[k] == e {
      assert k in keys;
    }
  }

  lemma {:induction false} BatchAscends(spool: map<nat, Envelope>, keys: seq<nat>, unreadable: set<nat>)
    requires Ascending(keys) && forall k | k in keys :: k in spool && spool[k].sequence == k
    ensures var batch := Batch(spool, keys, unreadable);
            forall i, j | 0 <= i < j < |batch| :: batch[i].sequence < batch[j].sequence
  {
    if keys != [] {
      var n := |keys| - 1;
      var front := keys[..n];
      BatchAscends(spool, front, unreadable);
      var before := Batch(spool, front, unreadable);
      forall i | 0 <= i < |before|
        ensures before[i].sequence < keys[n]
      {
        BatchMembers(spool, front, unreadable, before[i]);
        var k :| k in front && k !in unreadable && spool[k] == before[i];
        var m :| 0 <= m < n && front[m] == k;
        assert keys[m] < keys[n];
      }
    }
  }

  lemma ReadCloses(c: Config, s: State, step: Step)
    requires Inv(c, s) && step.Read? && Enabled(c, s, step)
    ensures var s' := Next(c, s, step);
            Closed(c, s.log, s'.quarantine, s.db, Batch(s.spool, step.keys, step.unreadable))
  {
    hide DrawnSound, NetworkSound, CollectorSound, Committed, EntrySound;
    var s' := Next(c, s, step);
    var batch := Batch(s.spool, step.keys, step.unreadable);
    BatchAscends(s.spool, step.keys, step.unreadable);
    forall e
      ensures e in batch <==> Chosen(s.spool, step.keys, step.unreadable, e)
    {
      BatchMembers(s.spool, step.keys, step.unreadable, e);
    }
    forall i: nat, j: nat | Earlier(s.log, i, j) && s.log[j].envelope in batch
      ensures s.log[i].envelope in batch || Safe(c, s.db, s'.quarantine, s.log[i].envelope)
    {
      var e := s.log[i].envelope;
      assert e.sequence < s.log[j].envelope.sequence;
      if !Safe(c, s.db, s.quarantine, e) {
        assert e.sequence in step.keys;
        assert e.sequence in step.unreadable ==> e in s'.quarantine;
      }
    }
  }

  lemma QuarantineKeepsCollector(c: Config, s: State, q': set<Envelope>)
    requires CollectorSound(c, s) && s.quarantine <= q'
    ensures CollectorSound(c, s.(quarantine := q'))
  {
    hide FromLog, HighestExact, Committed, CommittedAlerts, ReplayAlerts;
    forall i: nat, j: nat | Earlier(s.log, i, j) && Committed(s.db, c.nk, s.log[j].envelope)
      ensures Safe(c, s.db, q', s.log[i].envelope)
    {
      assert Safe(c, s.db, s.quarantine, s.log[i].envelope);
    }
  }

  lemma ReadKeepsInv(c: Config, s: State, step: Step)
    requires Inv(c, s) && step.Read? && Enabled(c, s, step)
    ensures Inv(c, Next(c, s, step))
  {
    hide LogSound, Picked, Closed, InLog, CollectorSound, Committed;
    var s' := Next(c, s, step);
    ReadCloses(c, s, step);
    QuarantineKeepsCollector(c, s, s'.quarantine);
    CollectorSame(c, s.(quarantine := s'.quarantine), s');
    forall batch | batch in s.sent
      ensures Closed(c, s.log, s'.quarantine, s.db, batch)
    {
      ClosedPersists(c, s.log, s.quarantine, s.db, s'.quarantine, s.db, batch);
    }
    forall i | 0 <= i < |s.log|
      ensures var e := s.log[i].envelope;
              (e.sequence in s'.spool && s'.spool[e.sequence] == e) || Safe(c, s.db, s'.quarantine, e)
    {
      var e := s.log[i].envelope;
      assert (e.sequence in s.spool && s.spool[e.sequence] == e) || Safe(c, s.db, s.quarantine, e);
      if e.sequence in s.spool && s.spool[e.sequence] == e && e.sequence in step.unreadable {
        assert e in s'.quarantine;
      }
    }
  }

  // ---- Serving, acknowledging, removing ---------------------------------------------------------------------------

  /** Serving a sent batch adds to what is committed and keeps the collector in order. */
  lemma ServeCommits(c: Config, s: State, step: Step)
    requires LogSound(c, s.log) && CollectorSound(c, s) && NetworkSound(c, s)
    requires step.ServeRequest? && Enabled(c, s, step)
    ensures var s' := Next(c, s, step);
            && CollectorSound(c, s') && (forall x :: Committed(s.db, c.nk, x) ==> Committed(s'.db, c.nk, x))
            && forall reply | reply in s'.replies && reply !in s.replies :: ReplySound(c, s'.db, reply)
  {
    hide LogSound, Closed, FromLog, HighestExact, InOrder, AlertsReplayed, Ingest, Trustworthy, Committed;
    IngestClosed(c, s.log, s.quarantine, s.db, step.batch, step.destinations);
    var r := Ingest(s.db, Some(c.nk), true, step.batch, step.destinations);
    assert Next(c, s, step).db == r.0;
  }

  lemma ServeKeepsInv(c: Config, s: State, step: Step)
    requires Inv(c, s) && step.ServeRequest? && Enabled(c, s, step)
    ensures Inv(c, Next(c, s, step))
  {
    hide LogSound, DrawnSound, SpoolSound, Closed, InLog, CollectorSound, Ingest, Trustworthy, Committed, Picked;
    var s' := Next(c, s, step);
    ServeCommits(c, s, step);
    forall batch | batch in s.sent
      ensures Closed(c, s.log, s.quarantine, s'.db, batch)
    {
      ClosedPersists(c, s.log, s.quarantine, s.db, s.quarantine, s'.db, batch);
    }
    if s.worker.Holding? {
      ClosedPersists(c, s.log, s.quarantine, s.db, s.quarantine, s'.db, s.worker.batch);
    }
    forall i | 0 <= i < |s.log|
      ensures var e := s.log[i].envelope;
              (e.sequence in s.spool && s.spool[e.sequence] == e) || Safe(c, s'.db, s.quarantine, e)
    {
      var e := s.log[i].envelope;
      assert (e.sequence in s.spool && s.spool[e.sequence] == e) || Safe(c, s.db, s.quarantine, e);
    }
    forall reply | reply in s'.replies
      ensures ReplySound(c, s'.db, reply)
    {
      if reply in s.replies {
        assert ReplySound(c, s.db, reply);
      }
    }
    SpoolSame(s, s');
    DrawnSame(s, s');
  }

  lemma SpoolSame(s: State, s': State)
    requires SpoolSound(s) && s'.spool == s.spool && s'.log == s.log
    ensures SpoolSound(s')
  {
  }

  lemma DrawnSame(s: State, s': State)
    requires DrawnSound(s) && s'.drawn == s.drawn && s'.log == s.log && s'.lastSequence == s.lastSequence
    ensures DrawnSound(s')
  {
  }

  lemma {:induction false} AcceptedOfShape(batch: seq<Envelope>, ack: Ack)
    ensures forall e :: e in AcceptedOf(batch, ack) <==> e in batch && e.messageId in ack.accepted
  {
    if batch != [] {
      AcceptedOfShape(batch[..|batch| - 1], ack);
    }
  }

  lemma RemoveKeepsInv(c: Config, s: State)
    requires Inv(c, s) && Enabled(c, s, Remove)
    ensures Inv(c, Next(c, s, Remove))
  {
    hide LogSound, DrawnSound, CollectorSound, NetworkSound, Committed, InLog;
    var s' := Next(c, s, Remove);
    DrawnSame(s, s');
    CollectorSame(c, s, s');
    NetworkSame(c, s, s');
    if s'.spool != s.spool {
      var e := s.worker.todo[0];
      assert e in s.worker.todo;
      forall i | 0 <= i < |s.log|
        ensures var x := s.log[i].envelope;
                (x.sequence in s'.spool && s'.spool[x.sequence] == x) || Safe(c, s.db, s.quarantine, x)
      {
        var x := s.log[i].envelope;
        assert (x.sequence in s.spool && s.spool[x.sequence] == x) || Safe(c, s.db, s.quarantine, x);
        if x.sequence == e.sequence {
          EntryInLog(s.log, i);
          SameSequence(c, s.log, x, e);
        }
      }
    }
  }

  lemma NetworkSame(c: Config, s: State, s': State)
    requires NetworkSound(c, s) && s'.sent == s.sent && s'.replies == s.replies
    requires s'.db == s.db && s'.log == s.log && s'.quarantine == s.quarantine
    ensures NetworkSound(c, s')
  {
  }

  lemma NothingLostSame(c: Config, s: State, s': State)
    requires NothingLost(c, s) && s'.spool == s.spool && s'.db == s.db && s'.log == s.log && s'.quarantine == s.quarantine
    ensures NothingLost(c, s')
  {
  }

  lemma ReceiveKeepsInv(c: Config, s: State, step: Step)
    requires Inv(c, s) && Enabled(c, s, step) && step.Receive?
    ensures Inv(c, Next(c, s, step))
  {
    hide LogSound, CollectorSound, NothingLost, SpoolSound, Closed, InLog, Committed, Trustworthy, Picked;
    var s' := Next(c, s, step);
    CollectorSame(c, s, s');
    NothingLostSame(c, s, s');
    SpoolSame(s, s');
    var batch := s.worker.batch;
    AcceptedOfShape(batch, step.ack);
    assert ReplySound(c, s.db, (batch, step.ack));
    ClosedInLog(c, s, batch);
  }

  lemma QuietKeepsInv(c: Config, s: State, step: Step)
    requires Inv(c, s) && Enabled(c, s, step)
    requires step.Draw? || step.AbandonAppend? || step.Send? || step.GiveUp? || step.Crash?
    ensures Inv(c, Next(c, s, step))
  {
    hide LogSound, CollectorSound, NothingLost, SpoolSound, Closed, InLog, Committed, ReplySound;
    var s' := Next(c, s, step);
    CollectorSame(c, s, s');
    NothingLostSame(c, s, s');
    SpoolSame(s, s');
  }

  lemma ClosedInLog(c: Config, s: State, batch: seq<Envelope>)
    requires Closed(c, s.log, s.quarantine, s.db, batch)
    ensures forall e | e in batch :: InLog(s.log, e)
  {
  }

  lemma StepKeepsInv(c: Config, s: State, step: Step)
    requires Inv(c, s) && Enabled(c, s, step)
    ensures Inv(c, Next(c, s, step))
  {
    hide Inv, Enabled, Next;
    match step
    case Append(_, _, _, _, _) => AppendKeepsInv(c, s, step);
    case Read(_, _, _) => ReadKeepsInv(c, s, step);
    case ServeRequest(_, _) => ServeKeepsInv(c, s, step);
    case Remove => RemoveKeepsInv(c, s);
    case Receive(_) => ReceiveKeepsInv(c, s, step);
    case _ => QuietKeepsInv(c, s, step);
  }

  lemma {:induction false} RunKeepsInv(c: Config, steps: seq<Step>)
    ensures Inv(c, Run(c, steps))
  {
    if steps == [] {
      StartInv(c);
    } else {
      hide Inv, Enabled, Next;
      var s, step := Run(c, steps[..|steps| - 1]), steps[|steps| - 1];
      RunKeepsInv(c, steps[..|steps| - 1]);
      if Enabled(c, s, step) {
        StepKeepsInv(c, s, step);
      }
    }
  }

  lemma StartInv(c: Config)
    ensures Inv(c, START)
  {
  }

  // ---- The theorems ---------------------------------------------------------------------------------------------

  /** No loss: at every step of every run each appended record is in the spool, in quarantine, or
      committed at the collector with the same content. */
  lemma NoLoss(c: Config, steps: seq<Step>, i: nat)
    requires i < |Run(c, steps).log|
    ensures var s := Run(c, steps);
            var e := s.log[i].envelope;
            || (e.sequence in s.spool && s.spool[e.sequence] == e)
            || e in s.quarantine
            || Committed(s.db, c.nk, e)
  {
    RunKeepsInv(c, steps);
  }

  /** A record leaves the spool by acknowledgement only after its commit. */
  lemma RemovedOnlyAfterCommit(c: Config, steps: seq<Step>, k: nat)
    requires var s := Run(c, steps);
             Enabled(c, s, Remove) && k in s.spool && k !in Next(c, s, Remove).spool
    ensures var s := Run(c, steps); Committed(s.db, c.nk, s.spool[k])
  {
    hide Run, LogSound, CollectorSound, NetworkSound, Committed;
    var s := Run(c, steps);
    RunKeepsInv(c, steps);
    var e := s.worker.todo[0];
    assert e in s.worker.todo;
    SameSequence(c, s.log, s.spool[k], e);
  }

  /** No sequence number is ever used twice, across crashes and restarts. */
  lemma SequencesUnique(c: Config, steps: seq<Step>, i: nat, j: nat)
    requires i < j < |Run(c, steps).log|
    ensures Run(c, steps).log[i].envelope.sequence != Run(c, steps).log[j].envelope.sequence
    ensures Run(c, steps).log[i].envelope.messageId != Run(c, steps).log[j].envelope.messageId
  {
    hide Run;
    RunKeepsInv(c, steps);
    var log := Run(c, steps).log;
    if log[i].envelope.messageId == log[j].envelope.messageId {
      assert InLog(log, log[i].envelope) && InLog(log, log[j].envelope);
      SameId(c, log, log[i].envelope, log[j].envelope);
    }
  }

  /** Whatever request is served, however late, the collector answers this agent with an error that
      changes nothing, or with a reply that rejects nothing and that the agent will trust. */
  lemma NeverAConflict(c: Config, steps: seq<Step>, batch: seq<Envelope>, destinations: seq<string>)
    requires batch in Run(c, steps).sent
    ensures var s := Run(c, steps);
            var (db, reply) := Ingest(s.db, Some(c.nk), true, batch, destinations);
            && (reply.Err? ==> db == s.db)
            && (reply.Ok? ==> reply.value.rejected == [] && Trustworthy(reply.value, batch) && AllCommitted(c, db, batch))
  {
    hide Run, Ingest, Trustworthy, Committed;
    RunKeepsInv(c, steps);
    var s := Run(c, steps);
    IngestClosed(c, s.log, s.quarantine, s.db, batch, destinations);
  }

  /** The records of one publisher, in the order it appended them. */
  function Mine(log: seq<Entry>, p: Publisher): seq<Envelope> {
    if log == [] then [] else
    Mine(log[..|log| - 1], p) + if log[|log| - 1].publisher == p then [log[|log| - 1].envelope] else []
  }

  /** `n` of the publisher's records are committed, namely the first `n`. */
  ghost predicate CommittedPrefix(c: Config, db: Tables, mine: seq<Envelope>, n: nat) {
    n <= |mine| && forall i | 0 <= i < |mine| :: Committed(db, c.nk, mine[i]) <==> i < n
  }

  /** What the collector has of the publisher is a prefix of what it appended. */
  ghost predicate PrefixHolds(c: Config, db: Tables, mine: seq<Envelope>) {
    exists n :: CommittedPrefix(c, db, mine, n)
  }

  /** What the publisher appended before a committed record is committed. */
  ghost predicate OrderKept(c: Config, log: seq<Entry>, db: Tables, p: Publisher) {
    forall i: nat, j: nat | Earlier(log, i, j) && log[i].publisher == p && Committed(db, c.nk, log[j].envelope) ::
      Committed(db, c.nk, log[i].envelope)
  }

  lemma {:induction false} PrefixOfLog(c: Config, log: seq<Entry>, db: Tables, p: Publisher) returns (n: nat)
    requires OrderKept(c, log, db, p)
    ensures CommittedPrefix(c, db, Mine(log, p), n)
    ensures (forall i | 0 <= i < |log| && log[i].publisher == p :: Committed(db, c.nk, log[i].envelope)) ==> n == |Mine(log, p)|
    decreases |log|
  {
    hide Committed;
    if log == [] {
      n := 0;
    } else {
      var front, last := log[..|log| - 1], log[|log| - 1];
      assert forall i | 0 <= i < |front| :: front[i] == log[i];
      assert forall i: nat, j: nat | Earlier(front, i, j) :: Earlier(log, i, j);
      n := PrefixOfLog(c, front, db, p);
      var mine := Mine(front, p);
      if last.publisher == p && Committed(db, c.nk, last.envelope) {
        forall i | 0 <= i < |front| && front[i].publisher == p
          ensures Committed(db, c.nk, front[i].envelope)
        {
          assert Earlier(log, i, |front|);
        }
        assert n == |mine|;
        n := n + 1;
      }
    }
  }

  /** Places in the history and places among the publisher's own records go together. */
  lemma {:induction false} MineAt(log: seq<Entry>, p: Publisher, i: nat) returns (k: nat)
    requires i < |log| && log[i].publisher == p
    ensures k < |Mine(log, p)| && Mine(log, p)[k] == log[i].envelope && k == |Mine(log[..i], p)|
    decreases |log|
  {
    var n := |log| - 1;
    if i == n {
      k := |Mine(log[..n], p)|;
    } else {
      k := MineAt(log[..n], p, i);
      assert log[..n][..i] == log[..i];
    }
  }

  lemma {:induction false} MineGrows(log: seq<Entry>, p: Publisher, i: nat, j: nat)
    requires i < j <= |log| && log[i].publisher == p
    ensures |Mine(log[..i], p)| < |Mine(log[..j], p)|
    decreases j
  {
    assert log[..j][..j - 1] == log[..j - 1];
    if i < j - 1 {
      MineGrows(log, p, i, j - 1);
    }
  }

  /** The committed records of a publisher are a prefix of what it appended if and only if none is
      committed before an earlier one. */
  lemma PrefixIsOrder(c: Config, log: seq<Entry>, db: Tables, p: Publisher)
    ensures PrefixHolds(c, db, Mine(log, p)) <==> OrderKept(c, log, db, p)
  {
    hide Committed;
    if OrderKept(c, log, db, p) {
      var n := PrefixOfLog(c, log, db, p);
    }
    forall i: nat, j: nat | PrefixHolds(c, db, Mine(log, p)) && Earlier(log, i, j) && log[i].publisher == p
      ensures Committed(db, c.nk, log[j].envelope) ==> Committed(db, c.nk, log[i].envelope)
    {
      var n :| CommittedPrefix(c, db, Mine(log, p), n);
      var k := MineAt(log, p, i);
      var m := MineAt(log, p, j);
      MineGrows(log, p, i, j);
    }
  }

  /** In every run in which the publisher's quarantined records, if any, are committed, what the
      collector has of it is a prefix of what it appended. */
  lemma CommittedIsPrefix(c: Config, steps: seq<Step>, p: Publisher) returns (n: nat)
    requires var s := Run(c, steps);
             forall i | 0 <= i < |s.log| && s.log[i].publisher == p && s.log[i].envelope in s.quarantine ::
               Committed(s.db, c.nk, s.log[i].envelope)
    ensures CommittedPrefix(c, Run(c, steps).db, Mine(Run(c, steps).log, p), n)
  {
    hide Run, Committed;
    RunKeepsInv(c, steps);
    var s := Run(c, steps);
    forall i: nat, j: nat | Earlier(s.log, i, j) && s.log[i].publisher == p && Committed(s.db, c.nk, s.log[j].envelope)
      ensures Committed(s.db, c.nk, s.log[i].envelope)
    {
      assert Safe(c, s.db, s.quarantine, s.log[i].envelope);
    }
    n := PrefixOfLog(c, s.log, s.db, p);
  }

  /** With quarantined records, nothing else can be missing before a committed record. */
  lemma OnlyQuarantinedMissing(c: Config, steps: seq<Step>, i: nat, j: nat)
    requires Earlier(Run(c, steps).log, i, j)
    requires Committed(Run(c, steps).db, c.nk, Run(c, steps).log[j].envelope)
    ensures var s := Run(c, steps);
            Committed(s.db, c.nk, s.log[i].envelope) || s.log[i].envelope in s.quarantine
  {
    RunKeepsInv(c, steps);
  }

  /** While no alert is in quarantine, the alert table is the replay of the committed alerts in
      publication order ... */
  lemma AlertTableIsReplay(c: Config, steps: seq<Step>)
    requires NoAlertIn(Run(c, steps).quarantine)
    ensures var s := Run(c, steps); s.db.alerts == ReplayAlerts(c.nk, CommittedAlerts(c, s.log, s.db))
  {
    RunKeepsInv(c, steps);
  }

  /** ... and serving any request, however late, only appends to them, so no alert ever moves back to
      an earlier published state. */
  lemma AlertsNeverRegress(c: Config, steps: seq<Step>, step: Step)
    requires var s := Run(c, steps); Enabled(c, s, step) && NoAlertIn(Next(c, s, step).quarantine)
    ensures var s := Run(c, steps);
            var s' := Next(c, s, step);
            CommittedAlerts(c, s.log, s.db) <= CommittedAlerts(c, s'.log, s'.db)
  {
    hide Run, Enabled, Inv, Committed, LogSound, InOrder, CommittedAlerts, AlertsInOrder;
    var s := Run(c, steps);
    var s' := Next(c, s, step);
    RunKeepsInv(c, steps);
    RunOne(c, steps, step);
    RunKeepsInv(c, steps + [step]);
    InvOrder(c, s);
    InvOrder(c, s');
    GrowingCommits(c, s, s', step);
    OrderOfAlerts(c, s.log, s.quarantine, s.db);
    OrderOfAlerts(c, s'.log, s'.quarantine, s'.db);
    AlertsGrow(c, s.log, s'.log, s.db, s'.db);
  }

  lemma RunOne(c: Config, steps: seq<Step>, step: Step)
    requires Enabled(c, Run(c, steps), step)
    ensures Run(c, steps + [step]) == Next(c, Run(c, steps), step)
  {
    assert (steps + [step])[..|steps|] == steps;
  }

  lemma InvOrder(c: Config, s: State)
    requires Inv(c, s)
    ensures LogSound(c, s.log) && InOrder(c, s.log, s.quarantine, s.db)
  {
  }

  lemma GrowingCommits(c: Config, s: State, s': State, step: Step)
    requires Inv(c, s) && Enabled(c, s, step) && s' == Next(c, s, step)
    ensures s.log <= s'.log && s.quarantine <= s'.quarantine
    ensures forall x :: Committed(s.db, c.nk, x) ==> Committed(s'.db, c.nk, x)
    ensures forall i | |s.log| <= i < |s'.log| :: !Committed(s.db, c.nk, s'.log[i].envelope)
  {
    hide LogSound, DrawnSound, SpoolSound, NothingLost, WorkerSound, NetworkSound, CollectorSound, Ingest, Trustworthy,
      Committed, Picked, MessageId;
    if step.ServeRequest? {
      ServeCommits(c, s, step);
    }
    if step.Append? {
      AppendLog(c, s, step);
      NotYetCommitted(c, s, s'.log[|s.log|]);
    }
  }

  lemma NotYetCommitted(c: Config, s: State, x: Entry)
    requires LogSound(c, s.log + [x]) && CollectorSound(c, s)
    ensures !Committed(s.db, c.nk, x.envelope)
  {
    hide LogSound, HighestExact, RowsSound, InLog, InOrder, AlertsReplayed;
    NewEntryIsNew(c, s.log, x);
  }

  /** When every committed set is a prefix, a larger one extends it. */
  lemma {:induction false} AlertsGrow(c: Config, log: seq<Entry>, log': seq<Entry>, db: Tables, db': Tables)
    requires log <= log' && LogSound(c, log') && AlertsInOrder(c, log', db')
    requires AlertsInOrder(c, log, db)
    requires forall x :: Committed(db, c.nk, x) ==> Committed(db', c.nk, x)
    requires forall i | |log| <= i < |log'| :: !Committed(db, c.nk, log'[i].envelope)
    ensures CommittedAlerts(c, log, db) <= CommittedAlerts(c, log', db')
    decreases |log'|
  {
    hide Committed, LogSound, AlertsInOrder, InLog;
    if log' != [] {
      var n := |log'| - 1;
      var front' := log'[..n];
      FrontSound(c, log', db');
      if |log| < |log'| {
        assert forall i | |log| <= i < n :: front'[i] == log'[i];
        AlertsGrow(c, log, front', db, db');
      } else {
        assert log == log';
        FrontSound(c, log, db);
        var e := log'[n].envelope;
        if e.kind == ProcessAlertKind && Committed(db, c.nk, e) {
          SameBefore(c, log', db, db');
        } else {
          AlertsGrow(c, front', front', db, db');
        }
      }
    }
  }

  /** Below a committed alert, both tables have every alert. */
  lemma SameBefore(c: Config, log: seq<Entry>, db: Tables, db': Tables)
    requires LogSound(c, log) && AlertsInOrder(c, log, db) && AlertsInOrder(c, log, db') && log != []
    requires var e := log[|log| - 1].envelope;
             e.kind == ProcessAlertKind && Committed(db, c.nk, e) && Committed(db', c.nk, e)
    ensures CommittedAlerts(c, log[..|log| - 1], db) == CommittedAlerts(c, log[..|log| - 1], db')
  {
    hide Committed, CommittedAlerts;
    var n := |log| - 1;
    var front := log[..n];
    forall i | 0 <= i < n && front[i].envelope.kind == ProcessAlertKind
      ensures Committed(db', c.nk, front[i].envelope) && Committed(db, c.nk, front[i].envelope)
    {
      assert EntrySound(c, log[i]) && EntrySound(c, log[n]);
      assert Earlier(log, i, n);
    }
    CommittedAlertsSame(c, front, db, db');
  }

  lemma FrontSound(c: Config, log: seq<Entry>, db: Tables)
    requires LogSound(c, log) && AlertsInOrder(c, log, db) && log != []
    ensures LogSound(c, log[..|log| - 1]) && AlertsInOrder(c, log[..|log| - 1], db)
  {
    hide Committed, EntrySound;
    var front := log[..|log| - 1];
    assert forall i: nat, j: nat | Earlier(front, i, j) :: Earlier(log, i, j);
  }
}
