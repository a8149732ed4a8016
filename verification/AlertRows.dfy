/** What the rows of the collector's alert table hold, and when exactly a request keeps the table the
    replay of the committed alerts in publication order (src/distributed.rs,
    crates/syspilot-cloud/src/lib.rs). */
module AlertRows {
  import opened Prelude
  import opened Telemetry
  import opened Acknowledgement
  import opened Spool
  import opened Collector
  import opened Delivery

  // ---- Rows -----------------------------------------------------------------------------------------------------

  predicate IsAlert(e: Envelope) {
    e.kind == ProcessAlertKind && e.payload.AlertPayload?
  }

  /** The record is an alert for that row. */
  predicate AlertFor(c: Config, e: Envelope, key: AlertKey) {
    IsAlert(e) && AlertKey(c.nk.tenant, e.payload.alert.instanceId) == key
  }

  ghost predicate CommittedFor(c: Config, db: Tables, e: Envelope, key: AlertKey) {
    AlertFor(c, e, key) && Committed(db, c.nk, e)
  }

  function Lookup(alerts: map<AlertKey, AlertRow>, key: AlertKey): Option<AlertRow> {
    if key in alerts then Some(alerts[key]) else None
  }

  /** The first and the last committed alert for a row, in publication order. */
  ghost function FirstCommitted(c: Config, log: seq<Entry>, db: Tables, key: AlertKey): Option<Envelope> {
    if log == [] then None else
    match FirstCommitted(c, log[..|log| - 1], db, key)
    case Some(e) => Some(e)
    case None => if CommittedFor(c, db, log[|log| - 1].envelope, key) then Some(log[|log| - 1].envelope) else None
  }

  ghost function LastCommitted(c: Config, log: seq<Entry>, db: Tables, key: AlertKey): Option<Envelope> {
    if log == [] then None
    else if CommittedFor(c, db, log[|log| - 1].envelope, key) then Some(log[|log| - 1].envelope)
    else LastCommitted(c, log[..|log| - 1], db, key)
  }

  /** A row started by one alert and brought up to date by another. */
  function RowOf(c: Config, first: ProcessAlert, last: ProcessAlert): AlertRow {
    AlertRow(c.nk.node, first.ruleId, last, first.observedNs / 1000, last.observedNs / 1000)
  }

  function RowBetween(c: Config, first: Option<Envelope>, last: Option<Envelope>): Option<AlertRow> {
    if first.Some? && last.Some? && IsAlert(first.value) && IsAlert(last.value)
    then Some(RowOf(c, first.value.payload.alert, last.value.payload.alert)) else None
  }

  /** What the row of an instance holds when alerts are applied in publication order. */
  ghost function ExpectedRow(c: Config, log: seq<Entry>, db: Tables, key: AlertKey): Option<AlertRow> {
    RowBetween(c, FirstCommitted(c, log, db, key), LastCommitted(c, log, db, key))
  }

  lemma {:induction false} EndsAreAlerts(c: Config, log: seq<Entry>, db: Tables, key: AlertKey)
    ensures var first, last := FirstCommitted(c, log, db, key), LastCommitted(c, log, db, key);
            && (first.Some? <==> last.Some?)
            && (first.Some? ==> CommittedFor(c, db, first.value, key) && InLog(log, first.value))
            && (last.Some? ==> CommittedFor(c, db, last.value, key) && InLog(log, last.value))
  {
    hide CommittedFor;
    if log != [] {
      var n := |log| - 1;
      EndsAreAlerts(c, log[..n], db, key);
      FrontInLog(log, n);
    }
  }

  lemma FrontInLog(log: seq<Entry>, n: nat)
    requires n < |log|
    ensures forall e | InLog(log[..n], e) :: InLog(log, e)
    ensures InLog(log, log[n].envelope)
  {
    forall e | InLog(log[..n], e)
      ensures InLog(log, e)
    {
      var i :| 0 <= i < n && log[..n][i].envelope == e;
      assert log[i].envelope == e;
    }
  }

  /** Replaying the committed alerts gives each row its first alert's beginning and its last one's state. */
  lemma {:induction false} ReplayRow(c: Config, log: seq<Entry>, db: Tables, key: AlertKey)
    ensures Lookup(ReplayAlerts(c.nk, CommittedAlerts(c, log, db)), key) == ExpectedRow(c, log, db, key)
  {
    hide Committed;
    if log != [] {
      var n := |log| - 1;
      var front, e := log[..n], log[n].envelope;
      ReplayRow(c, front, db, key);
      EndsAreAlerts(c, front, db, key);
      if IsAlert(e) && Committed(db, c.nk, e) {
        ReplayOneMore(c.nk, CommittedAlerts(c, front, db), e.payload.alert);
      } else {
        var alerts := CommittedAlerts(c, front, db);
        assert alerts + [] == alerts;
        assert CommittedAlerts(c, log, db) == alerts;
      }
    }
  }

  ghost predicate TableIsReplay(c: Config, log: seq<Entry>, db: Tables) {
    db.alerts == ReplayAlerts(c.nk, CommittedAlerts(c, log, db))
  }

  /** The table is the replay if and only if every row is. */
  lemma TableByRows(c: Config, log: seq<Entry>, db: Tables)
    ensures TableIsReplay(c, log, db) <==> forall key :: Lookup(db.alerts, key) == ExpectedRow(c, log, db, key)
  {
    hide ExpectedRow, ReplayAlerts, CommittedAlerts;
    var replay := ReplayAlerts(c.nk, CommittedAlerts(c, log, db));
    forall key
      ensures Lookup(replay, key) == ExpectedRow(c, log, db, key)
    {
      ReplayRow(c, log, db, key);
    }
    if forall key :: Lookup(db.alerts, key) == ExpectedRow(c, log, db, key) {
      forall key
        ensures (key in db.alerts <==> key in replay) && (key in replay ==> db.alerts[key] == replay[key])
      {
        assert Lookup(db.alerts, key) == Lookup(replay, key);
      }
    }
  }

  // ---- What one request does to a row -----------------------------------------------------------------------------

  ghost predicate NewFor(c: Config, db: Tables, e: Envelope, key: AlertKey) {
    AlertFor(c, e, key) && !Committed(db, c.nk, e)
  }

  /** The first and the last alert of the batch for a row that is not committed yet. */
  ghost function FirstNew(c: Config, db: Tables, batch: seq<Envelope>, key: AlertKey): Option<Envelope> {
    if batch == [] then None else
    match FirstNew(c, db, batch[..|batch| - 1], key)
    case Some(e) => Some(e)
    case None => if NewFor(c, db, batch[|batch| - 1], key) then Some(batch[|batch| - 1]) else None
  }

  ghost function LastNew(c: Config, db: Tables, batch: seq<Envelope>, key: AlertKey): Option<Envelope> {
    if batch == [] then None
    else if NewFor(c, db, batch[|batch| - 1], key) then Some(batch[|batch| - 1])
    else LastNew(c, db, batch[..|batch| - 1], key)
  }

  /** The row after the batch: begun by its first new alert unless it exists, with the state of its last. */
  function AppliedRow(c: Config, row: Option<AlertRow>, first: Option<Envelope>, last: Option<Envelope>): Option<AlertRow> {
    if row.None? then RowBetween(c, first, last)
    else if last.Some? && IsAlert(last.value) then
      Some(row.value.(payload := last.value.payload.alert, lastTransition := last.value.payload.alert.observedNs / 1000))
    else row
  }

  lemma {:induction false} NewAreAlerts(c: Config, db: Tables, batch: seq<Envelope>, key: AlertKey)
    ensures var first, last := FirstNew(c, db, batch, key), LastNew(c, db, batch, key);
            && (first.Some? <==> last.Some?)
            && (first.Some? ==> NewFor(c, db, first.value, key) && first.value in batch)
            && (last.Some? ==> NewFor(c, db, last.value, key) && last.value in batch)
  {
    hide NewFor;
    if batch != [] {
      NewAreAlerts(c, db, batch[..|batch| - 1], key);
    }
  }

  /** Applying one more record of the batch. */
  lemma ApplyOne(c: Config, log: seq<Entry>, start: Tables, db: Tables, front: seq<Envelope>, e: Envelope, key: AlertKey, destinations: seq<string>)
    requires LogSound(c, log) && FromLog(c, log, db) && InLog(log, e) && e !in front
    requires forall x :: Committed(db, c.nk, x) <==> Committed(start, c.nk, x) || x in front
    requires Insert(db, c.nk, e, destinations).Ok?
    requires Lookup(db.alerts, key) == AppliedRow(c, Lookup(start.alerts, key), FirstNew(c, start, front, key), LastNew(c, start, front, key))
    ensures var db' := Insert(db, c.nk, e, destinations).value.0;
            Lookup(db'.alerts, key)
            == AppliedRow(c, Lookup(start.alerts, key), FirstNew(c, start, front + [e], key), LastNew(c, start, front + [e], key))
  {
    hide LogSound, FromLog, InLog, Insert, Committed;
    InsertFromLog(c, log, db, e, destinations);
    NewAreAlerts(c, start, front, key);
    assert (front + [e])[..|front|] == front;
  }

  lemma {:induction false} ProcessedRow(
      c: Config, log: seq<Entry>, q: set<Envelope>, db: Tables, batch: seq<Envelope>, n: nat, key: AlertKey, destinations: seq<string>)
    requires LogSound(c, log) && FromLog(c, log, db) && Closed(c, log, q, db, batch)
    requires InOrder(c, log, q, db) && AlertsReplayed(c, log, q, db)
    requires n <= |batch| && Process(db, c.nk, batch[..n], destinations).Ok?
    ensures Lookup(Process(db, c.nk, batch[..n], destinations).value.0.alerts, key)
            == AppliedRow(c, Lookup(db.alerts, key), FirstNew(c, db, batch[..n], key), LastNew(c, db, batch[..n], key))
    decreases n
  {
    hide LogSound, FromLog, InOrder, AlertsReplayed, Insert, Committed, InLog, AppliedRow, FirstNew, LastNew, Lookup;
    if n == 0 {
      NothingApplied(c, db, key);
      assert batch[..0] == [];
    } else {
      var e := batch[n - 1];
      assert batch[..n][..n - 1] == batch[..n - 1] && batch[..n] == batch[..n - 1] + [e];
      ProcessedRow(c, log, q, db, batch, n - 1, key, destinations);
      ProcessClosed(c, log, q, db, batch, n - 1, destinations);
      ApplyOne(c, log, db, Process(db, c.nk, batch[..n - 1], destinations).value.0, batch[..n - 1], e, key, destinations);
    }
  }

  lemma NothingApplied(c: Config, db: Tables, key: AlertKey)
    ensures AppliedRow(c, Lookup(db.alerts, key), FirstNew(c, db, [], key), LastNew(c, db, [], key)) == Lookup(db.alerts, key)
  {
  }

  /** What each row holds after a request that succeeds, whatever it held before. */
  lemma ServedRow(c: Config, s: State, batch: seq<Envelope>, destinations: seq<string>, key: AlertKey)
    requires Inv(c, s) && batch in s.sent
    ensures var (db, reply) := Ingest(s.db, Some(c.nk), true, batch, destinations);
            reply.Ok? ==>
              Lookup(db.alerts, key)
              == AppliedRow(c, Lookup(s.db.alerts, key), FirstNew(c, s.db, batch, key), LastNew(c, s.db, batch, key))
  {
    hide LogSound, FromLog, InOrder, AlertsReplayed, HighestExact, Closed, Process, ValidBatch, FirstNew, LastNew, AppliedRow, Reply, HighestAccepted, Committed;
    assert Closed(c, s.log, s.quarantine, s.db, batch);
    var (db, reply) := Ingest(s.db, Some(c.nk), true, batch, destinations);
    if reply.Ok? {
      assert batch[..|batch|] == batch;
      ProcessedRow(c, s.log, s.quarantine, s.db, batch, |batch|, key, destinations);
    }
  }

  // ---- Old and new alerts of a row together -------------------------------------------------------------------------

  function Later(a: Option<Envelope>, b: Option<Envelope>): Option<Envelope> {
    if a.None? || (b.Some? && b.value.sequence > a.value.sequence) then b else a
  }

  function Sooner(a: Option<Envelope>, b: Option<Envelope>): Option<Envelope> {
    if a.None? || (b.Some? && b.value.sequence < a.value.sequence) then b else a
  }

  /** The ends are those in order of sequence numbers, as one thread publishes all alerts. */
  lemma {:induction false} EndsInOrder(c: Config, log: seq<Entry>, db: Tables, key: AlertKey, e: Envelope)
    requires LogSound(c, log) && InLog(log, e) && CommittedFor(c, db, e, key)
    ensures var first, last := FirstCommitted(c, log, db, key), LastCommitted(c, log, db, key);
            first.Some? && last.Some? && first.value.sequence <= e.sequence <= last.value.sequence
  {
    hide Committed, EntrySound;
    var n := |log| - 1;
    var i :| 0 <= i < |log| && log[i].envelope == e;
    EndsAreAlerts(c, log[..n], db, key);
    FrontSound(c, log, n);
    if i < n {
      assert log[..n][i].envelope == e;
      EndsInOrder(c, log[..n], db, key, e);
      if CommittedFor(c, db, log[n].envelope, key) {
        AlertsAscend(c, log, i, n);
      }
    } else if FirstCommitted(c, log[..n], db, key).Some? {
      var first := FirstCommitted(c, log[..n], db, key).value;
      var j :| 0 <= j < n && log[..n][j].envelope == first;
      AlertsAscend(c, log, j, n);
    }
  }

  lemma FrontSound(c: Config, log: seq<Entry>, n: nat)
    requires LogSound(c, log) && n <= |log|
    ensures LogSound(c, log[..n])
  {
    hide EntrySound;
  }

  lemma AlertsAscend(c: Config, log: seq<Entry>, i: nat, j: nat)
    requires LogSound(c, log) && i < j < |log| && IsAlert(log[i].envelope) && IsAlert(log[j].envelope)
    ensures log[i].envelope.sequence < log[j].envelope.sequence
  {
    assert EntrySound(c, log[i]) && EntrySound(c, log[j]);
  }

  lemma {:induction false} NewInOrder(c: Config, db: Tables, batch: seq<Envelope>, key: AlertKey, e: Envelope)
    requires (forall i, j | 0 <= i < j < |batch| :: batch[i].sequence < batch[j].sequence)
    requires e in batch && NewFor(c, db, e, key)
    ensures var first, last := FirstNew(c, db, batch, key), LastNew(c, db, batch, key);
            first.Some? && last.Some? && first.value.sequence <= e.sequence <= last.value.sequence
  {
    hide NewFor;
    var n := |batch| - 1;
    NewAreAlerts(c, db, batch[..n], key);
    if e in batch[..n] {
      NewInOrder(c, db, batch[..n], key, e);
    }
  }

  /** After the batch is committed, the ends of a row's alerts are the outer ones of old and new. */
  lemma EndsAfter(c: Config, log: seq<Entry>, db: Tables, db': Tables, batch: seq<Envelope>, key: AlertKey)
    requires LogSound(c, log) && (forall e | e in batch :: InLog(log, e))
    requires (forall i, j | 0 <= i < j < |batch| :: batch[i].sequence < batch[j].sequence)
    requires forall x :: Committed(db', c.nk, x) <==> Committed(db, c.nk, x) || x in batch
    ensures LastCommitted(c, log, db', key) == Later(LastCommitted(c, log, db, key), LastNew(c, db, batch, key))
    ensures FirstCommitted(c, log, db', key) == Sooner(FirstCommitted(c, log, db, key), FirstNew(c, db, batch, key))
  {
    hide Committed, LogSound, InLog, AlertFor;
    EndsAreAlerts(c, log, db, key);
    EndsAreAlerts(c, log, db', key);
    NewAreAlerts(c, db, batch, key);
    var last', last := LastCommitted(c, log, db', key), Later(LastCommitted(c, log, db, key), LastNew(c, db, batch, key));
    var first', first := FirstCommitted(c, log, db', key), Sooner(FirstCommitted(c, log, db, key), FirstNew(c, db, batch, key));
    if last'.Some? {
      OldOrNew(c, log, db, db', batch, key, last'.value);
      OldOrNew(c, log, db, db', batch, key, first'.value);
    }
    if last.Some? {
      EndsInOrder(c, log, db', key, last.value);
      EndsInOrder(c, log, db', key, first.value);
      SameSequence(c, log, last.value, last'.value);
      SameSequence(c, log, first.value, first'.value);
    }
  }

  lemma OldOrNew(c: Config, log: seq<Entry>, db: Tables, db': Tables, batch: seq<Envelope>, key: AlertKey, e: Envelope)
    requires LogSound(c, log) && InLog(log, e) && CommittedFor(c, db', e, key)
    requires (forall i, j | 0 <= i < j < |batch| :: batch[i].sequence < batch[j].sequence)
    requires Committed(db', c.nk, e) ==> Committed(db, c.nk, e) || e in batch
    ensures var last := Later(LastCommitted(c, log, db, key), LastNew(c, db, batch, key));
            var first := Sooner(FirstCommitted(c, log, db, key), FirstNew(c, db, batch, key));
            last.Some? && first.Some? && first.value.sequence <= e.sequence <= last.value.sequence
  {
    hide Committed, LogSound, InLog, AlertFor;
    EndsAreAlerts(c, log, db, key);
    NewAreAlerts(c, db, batch, key);
    if Committed(db, c.nk, e) {
      EndsInOrder(c, log, db, key, e);
    } else {
      NewInOrder(c, db, batch, key, e);
    }
  }

  // ---- Exactly ------------------------------------------------------------------------------------------------------

  /** The batch leaves this row as publication order has it: it brings nothing new for the row, or the
      row is new, or its last new alert is later than what the row holds (or the same), and its first
      new one is no earlier than the alert that began the row (or would have begun it alike). */
  ghost predicate KeepsRow(c: Config, log: seq<Entry>, db: Tables, batch: seq<Envelope>, key: AlertKey) {
    var firstOld, lastOld := FirstCommitted(c, log, db, key), LastCommitted(c, log, db, key);
    var firstNew, lastNew := FirstNew(c, db, batch, key), LastNew(c, db, batch, key);
    (firstOld.Some? && lastOld.Some? && firstNew.Some? && lastNew.Some?
     && IsAlert(firstOld.value) && IsAlert(lastOld.value) && IsAlert(firstNew.value) && IsAlert(lastNew.value)) ==>
      && (lastNew.value.sequence > lastOld.value.sequence || lastNew.value.payload == lastOld.value.payload)
      && (firstNew.value.sequence >= firstOld.value.sequence
          || (&& firstNew.value.payload.alert.ruleId == firstOld.value.payload.alert.ruleId
              && firstNew.value.payload.alert.observedNs / 1000 == firstOld.value.payload.alert.observedNs / 1000))
  }

  lemma RowExactly(c: Config, log: seq<Entry>, db: Tables, db': Tables, batch: seq<Envelope>, key: AlertKey)
    requires Lookup(db.alerts, key) == ExpectedRow(c, log, db, key)
    requires Lookup(db'.alerts, key) == AppliedRow(c, Lookup(db.alerts, key), FirstNew(c, db, batch, key), LastNew(c, db, batch, key))
    requires LastCommitted(c, log, db', key) == Later(LastCommitted(c, log, db, key), LastNew(c, db, batch, key))
    requires FirstCommitted(c, log, db', key) == Sooner(FirstCommitted(c, log, db, key), FirstNew(c, db, batch, key))
    ensures Lookup(db'.alerts, key) == ExpectedRow(c, log, db', key) <==> KeepsRow(c, log, db, batch, key)
  {
    hide Committed, FirstCommitted, LastCommitted, FirstNew, LastNew, Lookup, InLog;
    EndsAreAlerts(c, log, db, key);
    NewAreAlerts(c, db, batch, key);
  }

  /** At a state whose alert table is the replay in publication order, a request that succeeds keeps it
      the replay if and only if it keeps every row. */
  lemma ServeTableExactly(c: Config, s: State, batch: seq<Envelope>, destinations: seq<string>)
    requires Inv(c, s) && batch in s.sent && TableIsReplay(c, s.log, s.db)
    ensures var (db, reply) := Ingest(s.db, Some(c.nk), true, batch, destinations);
            && (reply.Err? ==> db == s.db)
            && (reply.Ok? ==> (TableIsReplay(c, s.log, db) <==> forall key :: KeepsRow(c, s.log, s.db, batch, key)))
  {
    hide Ingest, Committed, TableIsReplay, KeepsRow, Lookup, ExpectedRow, AppliedRow, FirstNew, LastNew, FirstCommitted,
      LastCommitted, LogSound, FromLog, HighestExact, InOrder, AlertsReplayed, Trustworthy, InLog;
    var (db, reply) := Ingest(s.db, Some(c.nk), true, batch, destinations);
    assert Closed(c, s.log, s.quarantine, s.db, batch);
    IngestClosed(c, s.log, s.quarantine, s.db, batch, destinations);
    if reply.Ok? {
      TableByRows(c, s.log, s.db);
      TableByRows(c, s.log, db);
      forall key
        ensures Lookup(db.alerts, key) == ExpectedRow(c, s.log, db, key) <==> KeepsRow(c, s.log, s.db, batch, key)
      {
        ServedRow(c, s, batch, destinations, key);
        EndsAfter(c, s.log, s.db, db, batch, key);
        RowExactly(c, s.log, s.db, db, batch, key);
      }
    }
  }

  /** A batch whose new alerts all come after the committed ones of the same instance keeps every row. */
  lemma LaterAlertsKeepRows(c: Config, log: seq<Entry>, db: Tables, batch: seq<Envelope>, key: AlertKey)
    requires forall e, f | e in batch && NewFor(c, db, e, key) && InLog(log, f) && CommittedFor(c, db, f, key) ::
               e.sequence > f.sequence
    ensures KeepsRow(c, log, db, batch, key)
  {
    hide Committed, InLog;
    EndsAreAlerts(c, log, db, key);
    NewAreAlerts(c, db, batch, key);
  }

  /** So without an alert in quarantine every request keeps every row. */
  lemma NoAlertQuarantinedKeepsRows(c: Config, s: State, batch: seq<Envelope>, key: AlertKey)
    requires Inv(c, s) && batch in s.sent && NoAlertIn(s.quarantine)
    ensures KeepsRow(c, s.log, s.db, batch, key)
  {
    hide Committed, KeepsRow, LogSound, FromLog, HighestExact, AlertsReplayed, NoAlertIn;
    OrderOfAlerts(c, s.log, s.quarantine, s.db);
    assert Closed(c, s.log, s.quarantine, s.db, batch);
    forall e, f | e in batch && NewFor(c, s.db, e, key) && InLog(s.log, f) && CommittedFor(c, s.db, f, key)
      ensures e.sequence > f.sequence
    {
      NotOvertaken(c, s, e, f);
    }
    LaterAlertsKeepRows(c, s.log, s.db, batch, key);
  }

  lemma NotOvertaken(c: Config, s: State, e: Envelope, f: Envelope)
    requires LogSound(c, s.log) && AlertsInOrder(c, s.log, s.db) && InLog(s.log, e) && InLog(s.log, f)
    requires IsAlert(e) && IsAlert(f) && !Committed(s.db, c.nk, e) && Committed(s.db, c.nk, f)
    ensures e.sequence > f.sequence
  {
    hide Committed, LogSound;
    var i: nat :| i < |s.log| && s.log[i].envelope == e;
    var j: nat :| j < |s.log| && s.log[j].envelope == f;
    if i < j {
      SamePublisher(c, s.log, i, j);
    } else {
      AlertsAscend(c, s.log, j, i);
    }
  }

  lemma SamePublisher(c: Config, log: seq<Entry>, i: nat, j: nat)
    requires LogSound(c, log) && i < j < |log| && IsAlert(log[i].envelope) && IsAlert(log[j].envelope)
    ensures Earlier(log, i, j)
  {
    assert EntrySound(c, log[i]) && EntrySound(c, log[j]);
  }

  /** A row that held its latest committed alert goes back to an older one if and only if the batch has
      a new alert for it, and none of them is later. */
  lemma RowMovesBackExactly(c: Config, s: State, batch: seq<Envelope>, destinations: seq<string>, key: AlertKey)
    requires Inv(c, s) && batch in s.sent && TableIsReplay(c, s.log, s.db) && key in s.db.alerts
    requires Ingest(s.db, Some(c.nk), true, batch, destinations).1.Ok?
    ensures var db := Ingest(s.db, Some(c.nk), true, batch, destinations).0;
            var before, last := LastCommitted(c, s.log, s.db, key), LastNew(c, s.db, batch, key);
            var held := if last.Some? then last else before;
            && before.Some? && held.Some? && IsAlert(before.value) && IsAlert(held.value) && key in db.alerts
            && s.db.alerts[key].payload == before.value.payload.alert && db.alerts[key].payload == held.value.payload.alert
            && (held.value.sequence < before.value.sequence
                <==> last.Some? && forall e | e in batch && NewFor(c, s.db, e, key) :: e.sequence < before.value.sequence)
  {
    hide Ingest, Committed, FirstNew, LastNew, FirstCommitted, LastCommitted, LogSound, FromLog, HighestExact, InOrder,
      AlertsReplayed, InLog, ReplayAlerts, CommittedAlerts, ExpectedRow;
    assert Closed(c, s.log, s.quarantine, s.db, batch);
    ServedRow(c, s, batch, destinations, key);
    ExpectedByEnds(c, s, key);
    NewAreAlerts(c, s.db, batch, key);
    var last := LastNew(c, s.db, batch, key);
    forall e | e in batch && NewFor(c, s.db, e, key)
      ensures last.Some? && e.sequence <= last.value.sequence
    {
      NewInOrder(c, s.db, batch, key, e);
    }
  }

  lemma ExpectedByEnds(c: Config, s: State, key: AlertKey)
    requires TableIsReplay(c, s.log, s.db) && key in s.db.alerts
    ensures var first, last := FirstCommitted(c, s.log, s.db, key), LastCommitted(c, s.log, s.db, key);
            && first.Some? && last.Some? && IsAlert(first.value) && IsAlert(last.value)
            && s.db.alerts[key] == RowOf(c, first.value.payload.alert, last.value.payload.alert)
  {
    hide FirstCommitted, LastCommitted, ReplayAlerts, CommittedAlerts;
    TableByRows(c, s.log, s.db);
    assert Lookup(s.db.alerts, key) == ExpectedRow(c, s.log, s.db, key);
  }

  // ---- Over runs ------------------------------------------------------------------------------------------------------

  /** The step serves a request that succeeds and leaves some row out of publication order. */
  ghost predicate MisordersRows(c: Config, s: State, step: Step) {
    && step.ServeRequest? && Enabled(c, s, step)
    && Ingest(s.db, Some(c.nk), true, step.batch, step.destinations).1.Ok?
    && exists key :: !KeepsRow(c, s.log, s.db, step.batch, key)
  }

  lemma StepTableExactly(c: Config, s: State, step: Step)
    requires Inv(c, s) && Enabled(c, s, step) && TableIsReplay(c, s.log, s.db)
    ensures var s' := Next(c, s, step); TableIsReplay(c, s'.log, s'.db) <==> !MisordersRows(c, s, step)
  {
    hide Inv, Ingest, Committed, KeepsRow, Picked, Trustworthy, MessageId, ValidEnvelope, ReplayAlerts;
    var s' := Next(c, s, step);
    if step.ServeRequest? {
      ServeTableExactly(c, s, step.batch, step.destinations);
    } else {
      GrowingCommits(c, s, s', step);
      assert s'.db == s.db;
      if step.Append? {
        assert s'.log[..|s'.log| - 1] == s.log;
        var alerts := CommittedAlerts(c, s.log, s.db);
        assert alerts + [] == alerts;
      }
    }
  }

  /** In every run the alert table is the replay of the committed alerts in publication order at every
      step, if and only if no request served in the run leaves a row out of that order. */
  lemma {:induction false} TableExactly(c: Config, steps: seq<Step>)
    ensures (forall n | 0 <= n <= |steps| :: TableIsReplay(c, Run(c, steps[..n]).log, Run(c, steps[..n]).db))
            <==> forall n | 0 <= n < |steps| :: !MisordersRows(c, Run(c, steps[..n]), steps[n])
  {
    hide Run, TableIsReplay, MisordersRows, Enabled, Next;
    if steps == [] {
      EmptyTable(c);
    } else {
      var k := |steps| - 1;
      var front, step := steps[..k], steps[k];
      TableExactly(c, front);
      assert forall n | 0 <= n <= k :: front[..n] == steps[..n];
      assert steps[..k + 1] == steps && front + [step] == steps && front[..k] == front;
      RunKeepsInv(c, front);
      assert forall n | 0 <= n < k ::
        MisordersRows(c, Run(c, front[..n]), front[n]) <==> MisordersRows(c, Run(c, steps[..n]), steps[n]);
      if Enabled(c, Run(c, front), step) {
        RunOne(c, front, step);
        if TableIsReplay(c, Run(c, front).log, Run(c, front).db) {
          StepTableExactly(c, Run(c, front), step);
        }
      } else {
        NoStep(c, front, step);
      }
    }
  }

  lemma EmptyTable(c: Config)
    ensures TableIsReplay(c, Run(c, []).log, Run(c, []).db)
  {
  }

  lemma NoStep(c: Config, steps: seq<Step>, step: Step)
    requires !Enabled(c, Run(c, steps), step)
    ensures Run(c, steps + [step]) == Run(c, steps) && !MisordersRows(c, Run(c, steps), step)
  {
    hide Enabled, Next, KeepsRow, Ingest;
    assert (steps + [step])[..|steps|] == steps;
  }
}
