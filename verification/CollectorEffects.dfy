/** What exactly one ingestion request adds to the collector's tables, and what it answers
    (crates/syspilot-cloud/src/lib.rs), read off the batch and the tables before and after. */
module CollectorEffects {
  import opened Prelude
  import opened Telemetry
  import opened Acknowledgement
  import opened Collector

  // ---- Deliveries and jobs --------------------------------------------------------------------------------

  /** Record `i` of the batch is stored by this request: its id was free, it is what is stored under
      that id now, and it is not the repetition of an earlier record. */
  ghost predicate StoredAnew(before: Tables, after: Tables, nk: NodeKey, batch: seq<Envelope>, i: nat)
    requires i < |batch|
  {
    var key := RowKey(nk, batch[i].messageId);
    && key !in before.messages && key in after.messages && after.messages[key].envelope == batch[i]
    && forall j | 0 <= j < i :: batch[j] != batch[i]
  }

  function ToEach(alert: AlertKey, destinations: seq<string>): seq<Delivery> {
    seq(|destinations|, i requires 0 <= i < |destinations| => Delivery(alert, destinations[i]))
  }

  /** The deliveries a record stored anew asks for: one per destination for an alert that fires. */
  function Asked(tenant: string, e: Envelope, destinations: seq<string>): seq<Delivery> {
    if e.kind == ProcessAlertKind && e.payload.AlertPayload? && e.payload.alert.state == "firing"
    then ToEach(AlertKey(tenant, e.payload.alert.instanceId), destinations) else []
  }

  /** The deliveries of the first `n` records, in batch order. */
  ghost function Queued(
    before: Tables, after: Tables, nk: NodeKey, batch: seq<Envelope>, destinations: seq<string>, n: nat): seq<Delivery>
    requires n <= |batch|
  {
    if n == 0 then [] else
    Queued(before, after, nk, batch, destinations, n - 1)
    + if StoredAnew(before, after, nk, batch, n - 1) then Asked(nk.tenant, batch[n - 1], destinations) else []
  }

  /** The rows among the first `n` records that get a reasoning job. */
  ghost predicate GetsJob(before: Tables, after: Tables, nk: NodeKey, batch: seq<Envelope>, n: nat, key: RowKey)
    requires n <= |batch|
  {
    exists i :: && 0 <= i < n && StoredAnew(before, after, nk, batch, i)
                && batch[i].kind != Health && key == RowKey(nk, batch[i].messageId)
  }

  lemma InsertEffects(db: Tables, nk: NodeKey, e: Envelope, destinations: seq<string>)
    requires Insert(db, nk, e, destinations).Ok?
    ensures var db' := Insert(db, nk, e, destinations).value.0;
            var isNew, key := IsFresh(db, nk, e), RowKey(nk, e.messageId);
            && db'.deliveries == db.deliveries + (if isNew then Asked(nk.tenant, e, destinations) else [])
            && db'.jobs == db.jobs + (if isNew && e.kind != Health then {key} else {})
            && (isNew ==> key in db'.messages && db'.messages[key].envelope == e)
            && (!isNew ==> db'.messages.Keys == db.messages.Keys)
  {
    hide Upsert, AcceptableAlert, ReasonableTime;
  }

  /** What was stored by the first `n` records is one of them. */
  lemma {:induction false} NewIsOfBatch(db: Tables, nk: NodeKey, batch: seq<Envelope>, destinations: seq<string>, n: nat, key: RowKey)
    requires RowsSound(db) && n <= |batch| && Process(db, nk, batch[..n], destinations).Ok?
    requires key in Process(db, nk, batch[..n], destinations).value.0.messages && key !in db.messages
    ensures exists j :: 0 <= j < n && key == RowKey(nk, batch[j].messageId)
                        && Process(db, nk, batch[..n], destinations).value.0.messages[key].envelope == batch[j]
  {
    hide Insert, RowsSound, Process;
    if n == 0 {
      NothingProcessed(db, nk, batch, destinations);
    } else {
      StepOfBatch(db, nk, batch, destinations, n - 1);
      var before := Process(db, nk, batch[..n - 1], destinations).value.0;
      ProcessSound(db, nk, batch[..n - 1], destinations);
      InsertSound(before, nk, batch[n - 1], destinations);
      if key in before.messages {
        NewIsOfBatch(db, nk, batch, destinations, n - 1, key);
      } else {
        OneNewRow(before, nk, batch[n - 1], destinations, key);
      }
    }
  }

  lemma OneNewRow(db: Tables, nk: NodeKey, e: Envelope, destinations: seq<string>, key: RowKey)
    requires Insert(db, nk, e, destinations).Ok? && key !in db.messages
    requires key in Insert(db, nk, e, destinations).value.0.messages
    ensures key == RowKey(nk, e.messageId) && IsFresh(db, nk, e)
    ensures Insert(db, nk, e, destinations).value.0.messages[key].envelope == e
  {
    hide Upsert, AcceptableAlert, ReasonableTime;
  }

  /** A record already processed is fresh no more, whatever became of it. */
  lemma ProcessedIsNotFresh(db: Tables, nk: NodeKey, batch: seq<Envelope>, destinations: seq<string>, n: nat, j: nat)
    requires RowsSound(db) && j < n <= |batch| && Process(db, nk, batch[..n], destinations).Ok?
    ensures !IsFresh(Process(db, nk, batch[..n], destinations).value.0, nk, batch[j])
  {
    hide Process, RowsSound;
    ProcessSettles(db, nk, batch[..n], destinations, j);
    var (after, outs) := Process(db, nk, batch[..n], destinations).value;
    if !outs[j].Accepted? {
      var k :| k in after.messages && k.node == nk
               && if k.messageId == batch[j].messageId then after.messages[k].envelope != batch[j]
                  else after.messages[k].envelope.sequence == batch[j].sequence;
      assert k.messageId == batch[j].messageId ==> k == RowKey(nk, batch[j].messageId);
    }
  }

  /** Record `n` is stored anew exactly when it is fresh when its turn comes. */
  lemma FreshExactly(db: Tables, nk: NodeKey, batch: seq<Envelope>, destinations: seq<string>, n: nat)
    requires RowsSound(db) && n < |batch| && Process(db, nk, batch[..n + 1], destinations).Ok?
    ensures Process(db, nk, batch[..n], destinations).Ok?
    ensures StoredAnew(db, Process(db, nk, batch[..n + 1], destinations).value.0, nk, batch, n)
            <==> IsFresh(Process(db, nk, batch[..n], destinations).value.0, nk, batch[n])
  {
    hide Process, RowsSound, Insert;
    StepOfBatch(db, nk, batch, destinations, n);
    var before := Process(db, nk, batch[..n], destinations).value.0;
    var after := Process(db, nk, batch[..n + 1], destinations).value.0;
    var e, key := batch[n], RowKey(nk, batch[n].messageId);
    ProcessSound(db, nk, batch[..n], destinations);
    InsertSound(before, nk, e, destinations);
    InsertEffects(before, nk, e, destinations);
    if IsFresh(before, nk, e) {
      forall j | 0 <= j < n
        ensures batch[j] != e
      {
        ProcessedIsNotFresh(db, nk, batch, destinations, n, j);
      }
      assert key !in db.messages;
    } else if key in before.messages && key !in db.messages {
      NewIsOfBatch(db, nk, batch, destinations, n, key);
    }
  }

  lemma StepOfBatch(db: Tables, nk: NodeKey, batch: seq<Envelope>, destinations: seq<string>, n: nat)
    requires n < |batch| && Process(db, nk, batch[..n + 1], destinations).Ok?
    ensures Process(db, nk, batch[..n], destinations).Ok?
    ensures var before := Process(db, nk, batch[..n], destinations).value.0;
            && Insert(before, nk, batch[n], destinations).Ok?
            && Process(db, nk, batch[..n + 1], destinations).value.0 == Insert(before, nk, batch[n], destinations).value.0
  {
    hide Insert;
    assert batch[..n + 1][..n] == batch[..n];
  }

  /** What was stored anew before a step still counts as such after it, and nothing else does. */
  lemma AnewStays(db: Tables, nk: NodeKey, batch: seq<Envelope>, destinations: seq<string>, n: nat, i: nat)
    requires RowsSound(db) && i < n < |batch| && Process(db, nk, batch[..n + 1], destinations).Ok?
    ensures Process(db, nk, batch[..n], destinations).Ok?
    ensures StoredAnew(db, Process(db, nk, batch[..n], destinations).value.0, nk, batch, i)
            <==> StoredAnew(db, Process(db, nk, batch[..n + 1], destinations).value.0, nk, batch, i)
  {
    hide Process, RowsSound, Insert;
    StepOfBatch(db, nk, batch, destinations, n);
    var before := Process(db, nk, batch[..n], destinations).value.0;
    var after := Process(db, nk, batch[..n + 1], destinations).value.0;
    var key := RowKey(nk, batch[i].messageId);
    ProcessSound(db, nk, batch[..n], destinations);
    InsertSound(before, nk, batch[n], destinations);
    if key in after.messages && key !in before.messages {
      OneNewRow(before, nk, batch[n], destinations, key);
      ProcessedIsNotFresh(db, nk, batch, destinations, n, i);
    }
  }

  lemma {:induction false} QueuedStays(db: Tables, nk: NodeKey, batch: seq<Envelope>, destinations: seq<string>, n: nat, i: nat)
    requires RowsSound(db) && i <= n < |batch| && Process(db, nk, batch[..n + 1], destinations).Ok?
    ensures Process(db, nk, batch[..n], destinations).Ok?
    ensures Queued(db, Process(db, nk, batch[..n], destinations).value.0, nk, batch, destinations, i)
            == Queued(db, Process(db, nk, batch[..n + 1], destinations).value.0, nk, batch, destinations, i)
  {
    hide Process, RowsSound, StoredAnew, Asked;
    StepOfBatch(db, nk, batch, destinations, n);
    if i > 0 {
      QueuedStays(db, nk, batch, destinations, n, i - 1);
      AnewStays(db, nk, batch, destinations, n, i - 1);
    }
  }

  lemma {:induction false} ProcessEffects(db: Tables, nk: NodeKey, batch: seq<Envelope>, destinations: seq<string>, n: nat)
    requires RowsSound(db) && n <= |batch| && Process(db, nk, batch[..n], destinations).Ok?
    ensures var after := Process(db, nk, batch[..n], destinations).value.0;
            && after.deliveries == db.deliveries + Queued(db, after, nk, batch, destinations, n)
            && forall key :: key in after.jobs <==> key in db.jobs || GetsJob(db, after, nk, batch, n, key)
  {
    hide Process, RowsSound, StoredAnew, Asked, Insert, IsFresh;
    if n == 0 {
      NothingProcessed(db, nk, batch, destinations);
    } else {
      StepOfBatch(db, nk, batch, destinations, n - 1);
      ProcessEffects(db, nk, batch, destinations, n - 1);
      var before := Process(db, nk, batch[..n - 1], destinations).value.0;
      var after := Process(db, nk, batch[..n], destinations).value.0;
      InsertEffects(before, nk, batch[n - 1], destinations);
      FreshExactly(db, nk, batch, destinations, n - 1);
      QueuedStays(db, nk, batch, destinations, n - 1, n - 1);
      forall key
        ensures GetsJob(db, after, nk, batch, n, key)
                <==> GetsJob(db, before, nk, batch, n - 1, key)
                     || (IsFresh(before, nk, batch[n - 1]) && batch[n - 1].kind != Health && key == RowKey(nk, batch[n - 1].messageId))
      {
        JobsStay(db, nk, batch, destinations, n - 1, key);
      }
    }
  }

  lemma JobsStay(db: Tables, nk: NodeKey, batch: seq<Envelope>, destinations: seq<string>, n: nat, key: RowKey)
    requires RowsSound(db) && n < |batch| && Process(db, nk, batch[..n + 1], destinations).Ok?
    ensures Process(db, nk, batch[..n], destinations).Ok?
    ensures var before, after := Process(db, nk, batch[..n], destinations).value.0, Process(db, nk, batch[..n + 1], destinations).value.0;
            GetsJob(db, before, nk, batch, n, key) <==> GetsJob(db, after, nk, batch, n, key)
  {
    hide Process, RowsSound, StoredAnew;
    StepOfBatch(db, nk, batch, destinations, n);
    forall i | 0 <= i < n
      ensures StoredAnew(db, Process(db, nk, batch[..n], destinations).value.0, nk, batch, i)
              <==> StoredAnew(db, Process(db, nk, batch[..n + 1], destinations).value.0, nk, batch, i)
    {
      AnewStays(db, nk, batch, destinations, n, i);
    }
  }

  /** A request that succeeds queues, in batch order, one delivery per destination for each record
      stored anew that is an alert in state "firing", and nothing else; it adds a reasoning job for
      each record stored anew that is no health record.  One that fails changes nothing. */
  lemma IngestEffects(db: Tables, identity: Option<NodeKey>, admitted: bool, batch: seq<Envelope>, destinations: seq<string>)
    requires RowsSound(db)
    ensures var (db', reply) := Ingest(db, identity, admitted, batch, destinations);
            && (reply.Err? ==> db' == db)
            && (reply.Ok? ==>
                  && identity.Some?
                  && db'.deliveries == db.deliveries + Queued(db, db', identity.value, batch, destinations, |batch|)
                  && forall key :: key in db'.jobs <==> key in db.jobs || GetsJob(db, db', identity.value, batch, |batch|, key))
  {
    hide Process, RowsSound, ValidBatch, StoredAnew, Asked, HighestAccepted, AcceptedIds, RejectedRecords;
    var (db', reply) := Ingest(db, identity, admitted, batch, destinations);
    if reply.Ok? {
      var nk := identity.value;
      assert batch[..|batch|] == batch;
      ProcessEffects(db, nk, batch, destinations, |batch|);
      var after := Process(db, nk, batch, destinations).value.0;
      SameMessages(db, after, db', nk, batch, destinations, |batch|);
    }
  }

  lemma {:induction false} SameMessages(
    db: Tables, a: Tables, b: Tables, nk: NodeKey, batch: seq<Envelope>, destinations: seq<string>, n: nat)
    requires n <= |batch| && a.messages == b.messages
    ensures Queued(db, a, nk, batch, destinations, n) == Queued(db, b, nk, batch, destinations, n)
    ensures forall key :: GetsJob(db, a, nk, batch, n, key) <==> GetsJob(db, b, nk, batch, n, key)
  {
    hide Asked;
    if n > 0 {
      SameMessages(db, a, b, nk, batch, destinations, n - 1);
    }
    assert forall i | 0 <= i < n :: StoredAnew(db, a, nk, batch, i) <==> StoredAnew(db, b, nk, batch, i);
  }

  // ---- Series of requests ------------------------------------------------------------------------------------

  /** The deliveries a series of requests queues, request by request. */
  ghost function QueuedBy(db: Tables, requests: seq<Request>): seq<Delivery> {
    if requests == [] then [] else
    var front, r := requests[..|requests| - 1], requests[|requests| - 1];
    var before := Serve(db, front);
    var (after, reply) := Ingest(before, r.identity, r.admitted, r.batch, r.destinations);
    QueuedBy(db, front)
    + if reply.Ok? && r.identity.Some? then Queued(before, after, r.identity.value, r.batch, r.destinations, |r.batch|)
      else []
  }

  lemma {:induction false} ServeDeliveries(db: Tables, requests: seq<Request>)
    requires Sound(db)
    ensures Serve(db, requests).deliveries == db.deliveries + QueuedBy(db, requests)
  {
    hide Ingest, RowsSound, HighestExact, Queued;
    if requests == [] {
      assert db.deliveries + [] == db.deliveries;
    } else {
      var front, r := requests[..|requests| - 1], requests[|requests| - 1];
      ServeDeliveries(db, front);
      ServeSound(db, front);
      IngestEffects(Serve(db, front), r.identity, r.admitted, r.batch, r.destinations);
    }
  }

  /** The reasoning jobs are those of the stored records that are no health records. */
  ghost predicate JobsExact(db: Tables) {
    forall k :: k in db.jobs <==> k in db.messages && db.messages[k].envelope.kind != Health
  }

  lemma IngestJobs(db: Tables, r: Request)
    requires Sound(db) && JobsExact(db)
    ensures JobsExact(Ingest(db, r.identity, r.admitted, r.batch, r.destinations).0)
  {
    hide Ingest, RowsSound, HighestExact;
    var (db', reply) := Ingest(db, r.identity, r.admitted, r.batch, r.destinations);
    IngestEffects(db, r.identity, r.admitted, r.batch, r.destinations);
    IngestSound(db, r.identity, r.admitted, r.batch, r.destinations);
    if reply.Ok? {
      forall k | k in db'.messages && k !in db.messages
        ensures k in db'.jobs <==> db'.messages[k].envelope.kind != Health
      {
        NewRowStored(db, r, k);
      }
    }
  }

  lemma NewRowStored(db: Tables, r: Request, k: RowKey)
    requires Sound(db) && k !in db.messages
    requires var (db', reply) := Ingest(db, r.identity, r.admitted, r.batch, r.destinations); reply.Ok? && k in db'.messages
    ensures r.identity.Some?
    ensures exists i :: && 0 <= i < |r.batch| && k == RowKey(r.identity.value, r.batch[i].messageId)
                        && StoredAnew(db, Ingest(db, r.identity, r.admitted, r.batch, r.destinations).0, r.identity.value, r.batch, i)
  {
    hide Process, RowsSound, HighestExact, ValidBatch, HighestAccepted, AcceptedIds, RejectedRecords;
    var nk := r.identity.value;
    var db' := Ingest(db, r.identity, r.admitted, r.batch, r.destinations).0;
    assert r.batch[..|r.batch|] == r.batch;
    NewIsOfBatch(db, nk, r.batch, r.destinations, |r.batch|, k);
    var j :| 0 <= j < |r.batch| && k == RowKey(nk, r.batch[j].messageId) && db'.messages[k].envelope == r.batch[j];
    var i := FirstSame(r.batch, j);
    assert StoredAnew(db, db', nk, r.batch, i);
  }

  lemma FirstSame(batch: seq<Envelope>, j: nat) returns (i: nat)
    requires j < |batch|
    ensures i <= j && batch[i] == batch[j] && forall k | 0 <= k < i :: batch[k] != batch[i]
  {
    i := 0;
    while batch[i] != batch[j]
      invariant i <= j && forall k | 0 <= k < i :: batch[k] != batch[j]
      decreases j - i
    {
      i := i + 1;
    }
  }

  /** After any series of requests the reasoning jobs are those of the stored records that are no health
      records. */
  lemma {:induction false} ServeJobs(requests: seq<Request>)
    ensures JobsExact(Serve(EMPTY, requests))
  {
    hide Ingest, RowsSound, HighestExact, JobsExact;
    if requests == [] {
      NoJobs();
    } else {
      var front, r := requests[..|requests| - 1], requests[|requests| - 1];
      ServeJobs(front);
      NoJobs();
      ServeSound(EMPTY, front);
      IngestJobs(Serve(EMPTY, front), r);
    }
  }

  lemma NoJobs()
    ensures JobsExact(EMPTY) && Sound(EMPTY)
  {
  }

  // ---- The answer -----------------------------------------------------------------------------------------------

  /** The id is stored with other content. */
  predicate ContentClash(db: Tables, nk: NodeKey, e: Envelope) {
    var key := RowKey(nk, e.messageId);
    key in db.messages && db.messages[key].envelope != e
  }

  /** The id is free but its sequence number is used by another record of the node. */
  ghost predicate SequenceClash(db: Tables, nk: NodeKey, e: Envelope) {
    && RowKey(nk, e.messageId) !in db.messages
    && exists k :: k in db.messages && k.node == nk && db.messages[k].envelope.sequence == e.sequence
  }

  /** An observation time in the years 2000 to 2099. */
  predicate InRange(ns: nat) {
    946_684_800_000_000_000 <= ns < 4_102_444_800_000_000_000
  }

  predicate HasText(s: string) {
    exists i :: 0 <= i < |s| && !IsWhitespace(s[i])
  }

  /** An alert the collector can turn into a row. */
  predicate GoodAlert(p: Payload) {
    && p.AlertPayload? && HasText(p.alert.instanceId) && HasText(p.alert.ruleId) && InRange(p.alert.observedNs)
    && (p.alert.state == "firing" || p.alert.state == "acknowledged" || p.alert.state == "resolved"
        || p.alert.state == "suppressed")
  }

  /** The collector can store the record, should it be new. */
  ghost predicate CanStore(db: Tables, nk: NodeKey, e: Envelope) {
    && e.sequence <= 9_223_372_036_854_775_807 && InRange(e.observedNs)
    && (e.kind == ProcessAlertKind && RowKey(nk, e.messageId) !in db.messages && !SequenceClash(db, nk, e) ==>
          GoodAlert(e.payload))
  }

  lemma RangeExactly(ns: nat)
    ensures InRange(ns) <==> ReasonableTime(ns)
  {
  }

  lemma GoodExactly(p: Payload)
    ensures GoodAlert(p) <==> AcceptableAlert(p)
  {
    hide ReasonableTime, InRange;
    if p.AlertPayload? {
      RangeExactly(p.alert.observedNs);
    }
  }

  /** One record is refused, with the error `Invalid`, exactly when it cannot be stored; it conflicts
      exactly when its id has other content, or its id is free and its sequence number is not. */
  lemma InsertExactly(db: Tables, nk: NodeKey, e: Envelope, destinations: seq<string>)
    requires RowsSound(db)
    ensures var r := Insert(db, nk, e, destinations);
            && (r.Ok? <==> CanStore(db, nk, e)) && (r.Err? ==> r.error == Invalid)
            && (r.Ok? ==>
                  && (r.value.1.ReplayConflict? <==> ContentClash(db, nk, e))
                  && (r.value.1.SequenceConflict? <==> SequenceClash(db, nk, e)))
  {
    hide ReasonableTime, InRange, AcceptableAlert, GoodAlert, Added;
    RangeExactly(e.observedNs);
    GoodExactly(e.payload);
    assert SequenceTaken(db, nk, e.sequence)
      <==> exists k :: k in db.messages && k.node == nk && db.messages[k].envelope.sequence == e.sequence;
  }

  /** The tables record `i` of the batch meets. */
  function Before(db: Tables, nk: NodeKey, batch: seq<Envelope>, destinations: seq<string>, i: nat): Tables
    requires i <= |batch| && Process(db, nk, batch[..i], destinations).Ok?
  {
    Process(db, nk, batch[..i], destinations).value.0
  }

  /** The rejection of record `i`, if it clashes. */
  ghost function Refusal(db: Tables, nk: NodeKey, e: Envelope): seq<Rejected> {
    if ContentClash(db, nk, e) then [Rejected(e.messageId, "message_id_content_conflict")]
    else if SequenceClash(db, nk, e) then [Rejected(e.messageId, "sequence_conflict")]
    else []
  }

  ghost function Refusals(db: Tables, nk: NodeKey, batch: seq<Envelope>, destinations: seq<string>, n: nat): seq<Rejected>
    requires n <= |batch|
  {
    if n == 0 then [] else
    Refusals(db, nk, batch, destinations, n - 1)
    + if Process(db, nk, batch[..n - 1], destinations).Ok?
      then Refusal(Before(db, nk, batch, destinations, n - 1), nk, batch[n - 1]) else []
  }

  /** The ids of the records that do not clash, in order. */
  ghost function Approvals(db: Tables, nk: NodeKey, batch: seq<Envelope>, destinations: seq<string>, n: nat): seq<string>
    requires n <= |batch|
  {
    if n == 0 then [] else
    Approvals(db, nk, batch, destinations, n - 1)
    + if Approves(db, nk, batch, destinations, n - 1) then [batch[n - 1].messageId] else []
  }

  ghost predicate Approves(db: Tables, nk: NodeKey, batch: seq<Envelope>, destinations: seq<string>, i: nat)
    requires i < |batch|
  {
    && Process(db, nk, batch[..i], destinations).Ok?
    && Refusal(Before(db, nk, batch, destinations, i), nk, batch[i]) == []
  }

  /** The highest sequence number among the approved records of the first `n`. */
  ghost predicate IsHighestApproved(
    db: Tables, nk: NodeKey, batch: seq<Envelope>, destinations: seq<string>, n: nat, highest: Option<nat>)
    requires n <= |batch|
  {
    && (highest.None? ==> forall i | 0 <= i < n :: !Approves(db, nk, batch, destinations, i))
    && (highest.Some? ==>
          && (exists i :: 0 <= i < n && Approves(db, nk, batch, destinations, i) && batch[i].sequence == highest.value)
          && (forall i | 0 <= i < n && Approves(db, nk, batch, destinations, i) :: batch[i].sequence <= highest.value))
  }

  lemma {:induction false} RefusedInOrder(db: Tables, nk: NodeKey, batch: seq<Envelope>, destinations: seq<string>, n: nat)
    requires RowsSound(db) && n <= |batch| && Process(db, nk, batch[..n], destinations).Ok?
    ensures RejectedRecords(batch[..n], Process(db, nk, batch[..n], destinations).value.1)
            == Refusals(db, nk, batch, destinations, n)
    ensures AcceptedIds(batch[..n], Process(db, nk, batch[..n], destinations).value.1)
            == Approvals(db, nk, batch, destinations, n)
  {
    hide Process, RowsSound, RejectedRecords, AcceptedIds, HighestAccepted, Refusal;
    if n == 0 {
      NothingProcessed(db, nk, batch, destinations);
    } else {
      var outs, o := OneDecided(db, nk, batch, destinations, n - 1);
      RefusedInOrder(db, nk, batch, destinations, n - 1);
    }
  }

  /** The decision on record `m`, and what it adds to the answer. */
  lemma OneDecided(db: Tables, nk: NodeKey, batch: seq<Envelope>, destinations: seq<string>, m: nat)
      returns (outs: seq<Outcome>, o: Outcome)
    requires RowsSound(db) && m < |batch| && Process(db, nk, batch[..m + 1], destinations).Ok?
    ensures Process(db, nk, batch[..m], destinations).Ok? && |outs| == m
    ensures outs == Process(db, nk, batch[..m], destinations).value.1
    ensures Process(db, nk, batch[..m + 1], destinations).value.1 == outs + [o]
    ensures var (b, os) := (batch[..m + 1], outs + [o]);
            var refusal := Refusal(Before(db, nk, batch, destinations, m), nk, batch[m]);
            && (o.Accepted? <==> refusal == []) && (o.Accepted? <==> Approves(db, nk, batch, destinations, m))
            && RejectedRecords(b, os) == RejectedRecords(batch[..m], outs) + refusal
            && AcceptedIds(b, os) == AcceptedIds(batch[..m], outs) + (if refusal == [] then [batch[m].messageId] else [])
            && HighestAccepted(b, os)
               == if o.Accepted? then MaxOption(HighestAccepted(batch[..m], outs), batch[m].sequence)
                  else HighestAccepted(batch[..m], outs)
  {
    hide Insert, RowsSound, ContentClash, SequenceClash, CanStore, RejectedRecords, AcceptedIds, HighestAccepted;
    assert batch[..m + 1][..m] == batch[..m];
    ProcessSound(db, nk, batch[..m], destinations);
    var before := Process(db, nk, batch[..m], destinations).value.0;
    outs := Process(db, nk, batch[..m], destinations).value.1;
    InsertExactly(before, nk, batch[m], destinations);
    o := Insert(before, nk, batch[m], destinations).value.1;
    ReplyOne(batch, outs, m, o);
  }

  lemma {:induction false} HighestInOrder(db: Tables, nk: NodeKey, batch: seq<Envelope>, destinations: seq<string>, n: nat)
    requires RowsSound(db) && n <= |batch| && Process(db, nk, batch[..n], destinations).Ok?
    ensures IsHighestApproved(db, nk, batch, destinations, n,
                              HighestAccepted(batch[..n], Process(db, nk, batch[..n], destinations).value.1))
  {
    hide Process, RowsSound, RejectedRecords, AcceptedIds, HighestAccepted, Refusal, Approves;
    if n == 0 {
      NothingProcessed(db, nk, batch, destinations);
    } else {
      var outs, o := OneDecided(db, nk, batch, destinations, n - 1);
      HighestInOrder(db, nk, batch, destinations, n - 1);
    }
  }

  /** The request is well formed: 1 to 256 envelopes of schema 1 with an id, a node, a payload, a positive
      sequence number and a time in range. */
  predicate WellFormed(batch: seq<Envelope>) {
    && 1 <= |batch| <= 256
    && forall e | e in batch ::
         && e.schemaVersion == 1 && HasText(e.messageId) && HasText(e.nodeId)
         && !e.payload.Null? && e.sequence > 0 && InRange(e.observedNs)
  }

  lemma WellFormedExactly(batch: seq<Envelope>)
    ensures WellFormed(batch) <==> ValidBatch(batch)
  {
    hide InRange, ReasonableTime;
    forall e: Envelope
      ensures InRange(e.observedNs) <==> ReasonableTime(e.observedNs)
      ensures InRange(e.observedNs) ==> e.observedNs != 0
    {
      RangeExactly(e.observedNs);
      Positive(e.observedNs);
    }
  }

  lemma Positive(ns: nat)
    ensures InRange(ns) ==> ns != 0
  {
  }

  /** The ids of the records that do not clash, in order; the others with the reason of their clash, in
      order; the highest sequence number approved; no delay. */
  ghost predicate Answers(db: Tables, nk: NodeKey, batch: seq<Envelope>, destinations: seq<string>, ack: Ack) {
    && ack.accepted == Approvals(db, nk, batch, destinations, |batch|)
    && ack.rejected == Refusals(db, nk, batch, destinations, |batch|)
    && IsHighestApproved(db, nk, batch, destinations, |batch|, ack.highest)
    && ack.retryAfterMs.None?
  }

  /** The answer to a request.  It is an error exactly when the request is malformed, comes without a
      known identity, has a record of another node, is not admitted, or meets a record that cannot be
      stored; otherwise every record is decided by whether it clashes when its turn comes. */
  lemma AnswerExactly(db: Tables, identity: Option<NodeKey>, admitted: bool, batch: seq<Envelope>, destinations: seq<string>)
    requires RowsSound(db)
    ensures var reply := Ingest(db, identity, admitted, batch, destinations).1;
            var ours := identity.Some? && forall e | e in batch :: e.nodeId == identity.value.node;
            && (reply.Ok? ==> identity.Some? && Answers(db, identity.value, batch, destinations, reply.value))
            && (reply == Err(Unauthorized) <==> WellFormed(batch) && identity.None?)
            && (reply == Err(Saturated) <==> WellFormed(batch) && ours && !admitted)
            && (reply.Ok? <==>
                  && WellFormed(batch) && ours && admitted
                  && forall i | 0 <= i < |batch| ::
                       && Process(db, identity.value, batch[..i], destinations).Ok?
                       && CanStore(Before(db, identity.value, batch, destinations, i), identity.value, batch[i]))
  {
    hide Insert, RowsSound, Process, CanStore, WellFormed, ValidBatch, Refusals, Approvals, IsHighestApproved,
      AcceptedIds, RejectedRecords, HighestAccepted;
    WellFormedExactly(batch);
    if identity.Some? {
      var nk := identity.value;
      assert batch[..|batch|] == batch;
      StorableExactly(db, nk, batch, destinations, |batch|);
      if Process(db, nk, batch, destinations).Ok? {
        RefusedInOrder(db, nk, batch, destinations, |batch|);
        HighestInOrder(db, nk, batch, destinations, |batch|);
      }
    }
  }

  lemma {:induction false} StorableExactly(db: Tables, nk: NodeKey, batch: seq<Envelope>, destinations: seq<string>, n: nat)
    requires RowsSound(db) && n <= |batch|
    ensures Process(db, nk, batch[..n], destinations).Ok?
            <==> forall i | 0 <= i < n ::
                   && Process(db, nk, batch[..i], destinations).Ok?
                   && CanStore(Before(db, nk, batch, destinations, i), nk, batch[i])
    ensures Process(db, nk, batch[..n], destinations).Err? ==>
              Process(db, nk, batch[..n], destinations).error == Invalid
  {
    hide Insert, RowsSound, CanStore;
    if n > 0 {
      var m := n - 1;
      assert batch[..n][..m] == batch[..m];
      StorableExactly(db, nk, batch, destinations, m);
      if Process(db, nk, batch[..m], destinations).Ok? {
        ProcessSound(db, nk, batch[..m], destinations);
        InsertExactly(Process(db, nk, batch[..m], destinations).value.0, nk, batch[m], destinations);
      }
    }
  }
}
