/** When exactly delivery keeps the order of publication (src/spool.rs, src/distributed.rs,
    crates/syspilot-cloud/src/lib.rs): conditions on the agent's and the collector's state before the
    request that would break it. */
module Order {
  import opened Prelude
  import opened Telemetry
  import opened Acknowledgement
  import opened Spool
  import opened Collector
  import opened Delivery

  // ---- One request --------------------------------------------------------------------------------------------

  /** The batch has a record of the publisher, but not an earlier one that is in quarantine and was
      never committed. */
  ghost predicate Overtakes(c: Config, s: State, p: Publisher, batch: seq<Envelope>) {
    exists i: nat, j: nat ::
      && Earlier(s.log, i, j) && s.log[i].publisher == p
      && s.log[i].envelope in s.quarantine && !Committed(s.db, c.nk, s.log[i].envelope)
      && s.log[j].envelope in batch && s.log[i].envelope !in batch
  }

  /** Serving a sent batch keeps the publisher's committed records a prefix if and only if the request
      fails or overtakes nothing. */
  lemma ServeOrderExactly(c: Config, s: State, batch: seq<Envelope>, destinations: seq<string>, p: Publisher)
    requires Inv(c, s) && batch in s.sent && OrderKept(c, s.log, s.db, p)
    ensures var (db, reply) := Ingest(s.db, Some(c.nk), true, batch, destinations);
            OrderKept(c, s.log, db, p) <==> reply.Err? || !Overtakes(c, s, p, batch)
  {
    hide Ingest, Committed, LogSound, FromLog, HighestExact, AlertsReplayed, DrawnSound, SpoolSound, NothingLost, WorkerSound, Trustworthy;
    var (db, reply) := Ingest(s.db, Some(c.nk), true, batch, destinations);
    IngestClosed(c, s.log, s.quarantine, s.db, batch, destinations);
    if reply.Ok? {
      if !Overtakes(c, s, p, batch) {
        forall i: nat, j: nat | Earlier(s.log, i, j) && s.log[i].publisher == p && Committed(db, c.nk, s.log[j].envelope)
          ensures Committed(db, c.nk, s.log[i].envelope)
        {
          if s.log[j].envelope in batch {
            assert s.log[i].envelope in batch || Safe(c, s.db, s.quarantine, s.log[i].envelope);
          }
        }
      } else {
        var i: nat, j: nat :|
          && Earlier(s.log, i, j) && s.log[i].publisher == p
          && s.log[i].envelope in s.quarantine && !Committed(s.db, c.nk, s.log[i].envelope)
          && s.log[j].envelope in batch && s.log[i].envelope !in batch;
        assert Committed(db, c.nk, s.log[j].envelope) && !Committed(db, c.nk, s.log[i].envelope);
      }
    }
  }

  /** The step serves a request that succeeds and overtakes a record of the publisher. */
  ghost predicate OvertakingStep(c: Config, s: State, step: Step, p: Publisher) {
    && step.ServeRequest? && Enabled(c, s, step)
    && Ingest(s.db, Some(c.nk), true, step.batch, step.destinations).1.Ok?
    && Overtakes(c, s, p, step.batch)
  }

  lemma StepOrderExactly(c: Config, s: State, step: Step, p: Publisher)
    requires Inv(c, s) && Enabled(c, s, step) && OrderKept(c, s.log, s.db, p)
    ensures var s' := Next(c, s, step); OrderKept(c, s'.log, s'.db, p) <==> !OvertakingStep(c, s, step, p)
  {
    hide Inv, Ingest, Committed, Overtakes, Picked, Trustworthy, MessageId, ValidEnvelope;
    var s' := Next(c, s, step);
    if step.ServeRequest? {
      ServeOrderExactly(c, s, step.batch, step.destinations, p);
      assert !Ingest(s.db, Some(c.nk), true, step.batch, step.destinations).1.Ok? ==> s'.db == s.db by {
        FailsWithoutEffect(s.db, c.nk, step.batch, step.destinations);
      }
    } else {
      GrowingCommits(c, s, s', step);
      assert s'.db == s.db;
      forall i: nat, j: nat | Earlier(s'.log, i, j) && s'.log[i].publisher == p && Committed(s'.db, c.nk, s'.log[j].envelope)
        ensures Committed(s'.db, c.nk, s'.log[i].envelope)
      {
        assert j < |s.log|;
        assert s'.log[i] == s.log[i] && s'.log[j] == s.log[j] && Earlier(s.log, i, j);
      }
    }
  }

  lemma FailsWithoutEffect(db: Tables, nk: NodeKey, batch: seq<Envelope>, destinations: seq<string>)
    ensures Ingest(db, Some(nk), true, batch, destinations).1.Err? ==> Ingest(db, Some(nk), true, batch, destinations).0 == db
  {
    hide Process, ValidBatch, Reply, HighestAccepted, Raise;
  }

  /** In every run, what the collector has of a publisher is a prefix of what it appended at every step,
      if and only if no request served in the run overtakes a quarantined record. */
  lemma PrefixExactly(c: Config, steps: seq<Step>, p: Publisher)
    ensures (forall n | 0 <= n <= |steps| :: PrefixHolds(c, Run(c, steps[..n]).db, Mine(Run(c, steps[..n]).log, p)))
            <==> forall n | 0 <= n < |steps| :: !OvertakingStep(c, Run(c, steps[..n]), steps[n], p)
  {
    hide Run, PrefixHolds, OrderKept, OvertakingStep;
    forall n | 0 <= n <= |steps|
      ensures PrefixHolds(c, Run(c, steps[..n]).db, Mine(Run(c, steps[..n]).log, p))
              <==> OrderKept(c, Run(c, steps[..n]).log, Run(c, steps[..n]).db, p)
    {
      PrefixIsOrder(c, Run(c, steps[..n]).log, Run(c, steps[..n]).db, p);
    }
    OrderExactly(c, steps, p);
  }

  lemma {:induction false} OrderExactly(c: Config, steps: seq<Step>, p: Publisher)
    ensures (forall n | 0 <= n <= |steps| :: OrderKept(c, Run(c, steps[..n]).log, Run(c, steps[..n]).db, p))
            <==> forall n | 0 <= n < |steps| :: !OvertakingStep(c, Run(c, steps[..n]), steps[n], p)
  {
    hide Run, OrderKept, OvertakingStep, Enabled, Next;
    if steps == [] {
      NothingCommitted(c, p);
    } else {
      var k := |steps| - 1;
      var front, step := steps[..k], steps[k];
      OrderExactly(c, front, p);
      assert forall n | 0 <= n <= k :: front[..n] == steps[..n];
      assert steps[..k + 1] == steps && front + [step] == steps && front[..k] == front;
      RunKeepsInv(c, front);
      assert forall n | 0 <= n < k ::
        OvertakingStep(c, Run(c, front[..n]), front[n], p) <==> OvertakingStep(c, Run(c, steps[..n]), steps[n], p);
      if Enabled(c, Run(c, front), step) {
        RunOne(c, front, step);
        if OrderKept(c, Run(c, front).log, Run(c, front).db, p) {
          StepOrderExactly(c, Run(c, front), step, p);
        }
      } else {
        Disabled(c, front, step, p);
      }
    }
  }

  lemma NothingCommitted(c: Config, p: Publisher)
    ensures OrderKept(c, Run(c, []).log, Run(c, []).db, p)
  {
  }

  lemma Disabled(c: Config, steps: seq<Step>, step: Step, p: Publisher)
    requires !Enabled(c, Run(c, steps), step)
    ensures Run(c, steps + [step]) == Run(c, steps) && !OvertakingStep(c, Run(c, steps), step, p)
  {
    hide Enabled, Next;
    assert (steps + [step])[..|steps|] == steps;
  }

  // ---- What is still to come ------------------------------------------------------------------------------------

  /** A batch that may still be served: sent, or held by the worker. */
  ghost predicate AtLarge(s: State, batch: seq<Envelope>) {
    batch in s.sent || (s.worker.Holding? && s.worker.batch == batch)
  }

  /** The record can still reach the collector without the other one: from the spool, or in a batch. */
  ghost predicate CanCome(s: State, e: Envelope, without: Envelope) {
    (e.sequence in s.spool && s.spool[e.sequence] == e)
    || exists batch :: AtLarge(s, batch) && e in batch && without !in batch
  }

  /** A record of the publisher sits in quarantine uncommitted, and a later one can come without it. */
  ghost predicate Exposed(c: Config, s: State, p: Publisher) {
    exists i: nat, j: nat ::
      && Earlier(s.log, i, j) && s.log[i].publisher == p
      && s.log[i].envelope in s.quarantine && !Committed(s.db, c.nk, s.log[i].envelope)
      && CanCome(s, s.log[j].envelope, s.log[i].envelope)
  }

  /** No record turns unreadable, and the publisher appends nothing. */
  predicate IsBenign(step: Step, p: Publisher) {
    (step.Read? ==> step.unreadable == {}) && (step.Append? ==> step.publisher != p)
  }

  predicate Benign(more: seq<Step>, p: Publisher) {
    forall step | step in more :: IsBenign(step, p)
  }

  lemma BenignStep(c: Config, s: State, step: Step, p: Publisher)
    requires Inv(c, s) && Enabled(c, s, step) && IsBenign(step, p)
    requires OrderKept(c, s.log, s.db, p) && !Exposed(c, s, p)
    ensures var s' := Next(c, s, step); OrderKept(c, s'.log, s'.db, p) && !Exposed(c, s', p)
  {
    hide Inv, Ingest, Committed, CanCome, OrderKept, MessageId, ValidEnvelope, Picked, Trustworthy;
    var s' := Next(c, s, step);
    GrowingCommits(c, s, s', step);
    StepOrderExactly(c, s, step, p);
    if OvertakingStep(c, s, step, p) {
      OvertakingExposes(c, s, step.batch, p);
    }
    QuarantineSame(c, s, step);
    forall i: nat, j: nat | Earlier(s'.log, i, j) && s'.log[i].publisher == p
      ensures Earlier(s.log, i, j) && s'.log[i] == s.log[i] && s'.log[j] == s.log[j]
    {
      assert step.Append? ==> s'.log[|s.log|].publisher != p;
    }
    forall i: nat, j: nat | Earlier(s.log, i, j) && s.log[i].publisher == p
                            && CanCome(s', s.log[j].envelope, s.log[i].envelope)
                            && s.log[i].envelope in s.quarantine && !Committed(s.db, c.nk, s.log[i].envelope)
      ensures CanCome(s, s.log[j].envelope, s.log[i].envelope)
    {
      ComesAsBefore(c, s, step, i, j, p);
    }
  }

  lemma QuarantineSame(c: Config, s: State, step: Step)
    requires Enabled(c, s, step) && (step.Read? ==> step.unreadable == {})
    ensures Next(c, s, step).quarantine == s.quarantine
  {
    hide Ingest, Picked, Trustworthy, ValidEnvelope;
  }

  lemma OvertakingExposes(c: Config, s: State, batch: seq<Envelope>, p: Publisher)
    requires batch in s.sent && Overtakes(c, s, p, batch)
    ensures Exposed(c, s, p)
  {
    hide Committed;
    var i: nat, j: nat :|
      && Earlier(s.log, i, j) && s.log[i].publisher == p
      && s.log[i].envelope in s.quarantine && !Committed(s.db, c.nk, s.log[i].envelope)
      && s.log[j].envelope in batch && s.log[i].envelope !in batch;
    assert AtLarge(s, batch);
    assert CanCome(s, s.log[j].envelope, s.log[i].envelope);
  }

  /** What can come after a benign step could come before it. */
  lemma ComesAsBefore(c: Config, s: State, step: Step, i: nat, j: nat, p: Publisher)
    requires Inv(c, s) && Enabled(c, s, step) && IsBenign(step, p)
    requires Earlier(s.log, i, j) && s.log[i].publisher == p
    requires CanCome(Next(c, s, step), s.log[j].envelope, s.log[i].envelope)
    ensures CanCome(s, s.log[j].envelope, s.log[i].envelope)
  {
    hide Ingest, Committed, MessageId, ValidEnvelope, Trustworthy, Picked, NothingLost, WorkerSound, NetworkSound, CollectorSound, LogSound;
    var s' := Next(c, s, step);
    var e, f := s.log[i].envelope, s.log[j].envelope;
    if f.sequence in s'.spool && s'.spool[f.sequence] == f {
      if step.Append? {
        assert s.log[j].envelope.sequence != s.drawn[step.publisher];
      }
    } else {
      var batch :| AtLarge(s', batch) && f in batch && e !in batch;
      if !AtLarge(s, batch) {
        ReadFromSpool(s, step, batch, f);
      }
    }
  }

  lemma ReadFromSpool(s: State, step: Step, batch: seq<Envelope>, f: Envelope)
    requires SpoolSound(s) && step.Read? && Picked(s.spool, step.limit, step.keys)
    requires batch == Batch(s.spool, step.keys, step.unreadable) && f in batch
    ensures f.sequence in s.spool && s.spool[f.sequence] == f
  {
    BatchMembers(s.spool, step.keys, step.unreadable, f);
    var k :| k in step.keys && k !in step.unreadable && s.spool[k] == f;
  }

  lemma {:induction false} BenignRun(c: Config, steps: seq<Step>, more: seq<Step>, p: Publisher)
    requires Benign(more, p) && !Exposed(c, Run(c, steps), p) && OrderKept(c, Run(c, steps).log, Run(c, steps).db, p)
    ensures OrderKept(c, Run(c, steps + more).log, Run(c, steps + more).db, p) && !Exposed(c, Run(c, steps + more), p)
  {
    hide Run, OrderKept, Exposed, Enabled, Next, IsBenign;
    if more == [] {
      assert steps + more == steps;
    } else {
      var front, step := more[..|more| - 1], more[|more| - 1];
      assert step in more;
      BenignRun(c, steps, front, p);
      assert steps + more == (steps + front) + [step];
      RunKeepsInv(c, steps + front);
      if Enabled(c, Run(c, steps + front), step) {
        RunOne(c, steps + front, step);
        BenignStep(c, Run(c, steps + front), step, p);
      } else {
        Disabled(c, steps + front, step, p);
      }
    }
  }

  // ---- Getting a record through -----------------------------------------------------------------------------------

  /** The collector has no objection to the record. */
  predicate Deliverable(e: Envelope) {
    && e.sequence <= MAX_I64 && ReasonableTime(e.observedNs)
    && (e.kind == ProcessAlertKind ==> AcceptableAlert(e.payload))
  }

  lemma {:induction false} ProcessGoes(c: Config, s: State, batch: seq<Envelope>, n: nat, destinations: seq<string>)
    requires LogSound(c, s.log) && CollectorSound(c, s) && Closed(c, s.log, s.quarantine, s.db, batch) && n <= |batch|
    requires forall e | e in batch :: Deliverable(e)
    ensures Process(s.db, c.nk, batch[..n], destinations).Ok?
    decreases n
  {
    hide LogSound, InOrder, AlertsReplayed, HighestExact, Added, AcceptableAlert, ReasonableTime, Committed, Replayed, InLog;
    if n > 0 {
      assert batch[..n][..n - 1] == batch[..n - 1] && batch[..n][n - 1] == batch[n - 1];
      ProcessGoes(c, s, batch, n - 1, destinations);
      assert Deliverable(batch[n - 1]);
    }
  }

  lemma IngestGoes(c: Config, s: State, batch: seq<Envelope>, destinations: seq<string>)
    requires Inv(c, s) && Closed(c, s.log, s.quarantine, s.db, batch) && 0 < |batch| <= MAX_BATCH
    requires forall e | e in batch :: Deliverable(e)
    ensures Ingest(s.db, Some(c.nk), true, batch, destinations).1.Ok?
  {
    hide Process, CollectorSound, DrawnSound, SpoolSound, NothingLost, WorkerSound, NetworkSound, ValidEnvelope, Committed, MessageId;
    assert batch[..|batch|] == batch;
    ProcessGoes(c, s, batch, |batch|, destinations);
    forall e | e in batch
      ensures ValidEnvelope(e) && e.sequence > 0 && ReasonableTime(e.observedNs) && e.nodeId == c.nk.node
    {
      assert InLog(s.log, e);
      var i :| 0 <= i < |s.log| && s.log[i].envelope == e;
      assert EntrySound(c, s.log[i]);
    }
  }

  lemma OneRecord(c: Config, s: State, k: nat)
    requires SpoolSound(s) && LogSound(c, s.log) && NothingLost(c, s) && k in s.spool && forall x | x in s.spool :: k <= x
    ensures Picked(s.spool, 1, [k]) && Batch(s.spool, [k], {}) == [s.spool[k]] && s.spool[k].sequence == k
  {
    assert [k][..0] == [];
    assert Batch(s.spool, [], {}) == [];
  }

  lemma AcceptsOne(r: Envelope, ack: Ack)
    requires Trustworthy(ack, [r]) && ack.rejected == []
    ensures AcceptedOf([r], ack) == [r] && r.messageId in ack.accepted
  {
    var decided := ack.accepted + RejectedIds(ack.rejected);
    assert decided == ack.accepted;
    assert decided[0] in decided && decided[0] in Ids([r]);
    assert [r][..0] == [];
    assert AcceptedOf([], ack) == [];
  }

  /** The worker reads one record, sends it, has it committed and acknowledged, and removes it. */
  function RoundSteps(k: nat, r: Envelope, ack: Ack): seq<Step> {
    [Read(1, [k], {}), Send, ServeRequest([r], []), Receive(ack), Remove, Remove]
  }

  lemma Round(c: Config, steps: seq<Step>, k: nat) returns (more: seq<Step>)
    requires var s := Run(c, steps);
             s.worker.Idle? && k in s.spool && (forall x | x in s.spool :: k <= x) && Deliverable(s.spool[k])
    ensures var s, s' := Run(c, steps), Run(c, steps + more);
            && s'.worker.Idle? && s'.spool == s.spool - {k} && s'.log == s.log && s'.quarantine == s.quarantine
            && (forall x :: Committed(s'.db, c.nk, x) <==> Committed(s.db, c.nk, x) || x == s.spool[k])
            && forall p :: Benign(more, p)
  {
    hide Run, Ingest, Trustworthy, Committed, Deliverable, LogSound, DrawnSound, CollectorSound, NothingLost, NetworkSound, Picked, Batch, AcceptedOf;
    var s := Run(c, steps);
    var r := s.spool[k];
    RunKeepsInv(c, steps);
    OneRecord(c, s, k);
    var s1 := s.(worker := Holding([r]));
    assert s.spool - {} == s.spool;
    QuarantineSame(c, s, Read(1, [k], {}));
    Go(c, steps, Read(1, [k], {}), s, s1);
    var t1 := steps + [Read(1, [k], {})];
    var s2 := s1.(sent := s1.sent + {[r]});
    Go(c, t1, Send, s1, s2);
    var t2 := t1 + [Send];
    RunKeepsInv(c, t2);
    SentCloses(c, s2, [r]);
    IngestGoes(c, s2, [r], []);
    IngestClosedIn(c, s2, [r]);
    var (db, reply) := Ingest(s2.db, Some(c.nk), true, [r], []);
    var ack := reply.value;
    var s3 := s2.(db := db, replies := s2.replies + {([r], ack)});
    Go(c, t2, ServeRequest([r], []), s2, s3);
    var t3 := t2 + [ServeRequest([r], [])];
    AcceptsOne(r, ack);
    var s4 := s3.(worker := Removing([r]));
    Go(c, t3, Receive(ack), s3, s4);
    var t4 := t3 + [Receive(ack)];
    var s5 := s4.(spool := s4.spool - {k}, worker := Removing([]));
    assert [r][1..] == [];
    Go(c, t4, Remove, s4, s5);
    var t5 := t4 + [Remove];
    Go(c, t5, Remove, s5, s5.(worker := Idle));
    more := RoundSteps(k, r, ack);
    assert steps + more == t5 + [Remove];
  }

  lemma Go(c: Config, steps: seq<Step>, step: Step, s: State, s': State)
    requires Run(c, steps) == s && Enabled(c, s, step) && Next(c, s, step) == s'
    ensures Run(c, steps + [step]) == s'
  {
    hide Run, Enabled, Next;
    RunOne(c, steps, step);
  }

  lemma SentCloses(c: Config, s: State, batch: seq<Envelope>)
    requires Inv(c, s) && batch in s.sent
    ensures Closed(c, s.log, s.quarantine, s.db, batch)
  {
  }

  lemma IngestClosedIn(c: Config, s: State, batch: seq<Envelope>)
    requires Inv(c, s) && Closed(c, s.log, s.quarantine, s.db, batch)
    ensures var (db, reply) := Ingest(s.db, Some(c.nk), true, batch, []);
            reply.Ok? ==> reply.value.rejected == [] && Trustworthy(reply.value, batch)
                          && forall x :: Committed(db, c.nk, x) <==> Committed(s.db, c.nk, x) || x in batch
  {
    hide Ingest, Trustworthy, Committed, LogSound;
    IngestClosed(c, s.log, s.quarantine, s.db, batch, []);
  }

  lemma {:induction false} Smallest(keys: set<nat>) returns (k: nat)
    requires keys != {}
    ensures k in keys && forall x | x in keys :: k <= x
    decreases |keys|
  {
    var x :| x in keys;
    var rest := keys - {x};
    assert keys == rest + {x};
    if rest == {} {
      k := x;
    } else {
      var y := Smallest(rest);
      k := if x < y then x else y;
    }
  }

  /** Whatever the collector does not object to gets through: the worker can deliver the spool from its
      oldest record up to any other, committing nothing that was not in the spool. */
  lemma {:induction false} DeliverUpTo(c: Config, steps: seq<Step>, f: nat) returns (more: seq<Step>)
    requires var s := Run(c, steps);
             s.worker.Idle? && f in s.spool && forall k | k in s.spool :: Deliverable(s.spool[k])
    ensures var s, s' := Run(c, steps), Run(c, steps + more);
            && s'.log == s.log && Committed(s'.db, c.nk, s.spool[f])
            && (forall x | Committed(s'.db, c.nk, x) :: Committed(s.db, c.nk, x) || x in s.spool.Values)
            && forall p :: Benign(more, p)
    decreases |Run(c, steps).spool|
  {
    hide Run, Committed, Deliverable, Benign;
    var s := Run(c, steps);
    var k := Smallest(s.spool.Keys);
    var first := Round(c, steps, k);
    var s1 := Run(c, steps + first);
    assert s.spool[k] in s.spool.Values;
    if k == f {
      more := first;
    } else {
      assert s1.spool.Keys == s.spool.Keys - {k};
      assert |s1.spool| == |s1.spool.Keys| < |s.spool.Keys| == |s.spool|;
      assert forall x | x in s1.spool :: s1.spool[x] == s.spool[x] && s1.spool[x] in s.spool.Values;
      var rest := DeliverUpTo(c, steps + first, f);
      more := first + rest;
      assert steps + more == (steps + first) + rest;
      assert s1.spool.Values <= s.spool.Values;
      forall p
        ensures Benign(more, p)
      {
        BenignConcat(first, rest, p);
      }
    }
  }

  lemma BenignConcat(a: seq<Step>, b: seq<Step>, p: Publisher)
    requires Benign(a, p) && Benign(b, p)
    ensures Benign(a + b, p)
  {
  }

  /** What is in quarantine was appended, and is not in the spool any more. */
  ghost predicate Apart(s: State) {
    forall e | e in s.quarantine :: InLog(s.log, e) && e.sequence !in s.spool
  }

  lemma StepApart(c: Config, s: State, step: Step)
    requires Inv(c, s) && Apart(s) && Enabled(c, s, step)
    ensures Apart(Next(c, s, step))
  {
    hide Ingest, Trustworthy, MessageId, ValidEnvelope, LogSound, NothingLost, WorkerSound, NetworkSound, CollectorSound, Picked;
    var s' := Next(c, s, step);
    if step.Append? {
      forall e | e in s.quarantine
        ensures InLog(s'.log, e) && e.sequence !in s'.spool
      {
        var i :| 0 <= i < |s.log| && s.log[i].envelope == e;
        assert s'.log[i] == s.log[i];
      }
    } else if step.Read? {
      ReadApart(c, s, step);
    }
  }

  lemma ReadApart(c: Config, s: State, step: Step)
    requires SpoolSound(s) && Apart(s) && step.Read? && Enabled(c, s, step)
    ensures Apart(Next(c, s, step))
  {
    hide InLog;
    var s' := Next(c, s, step);
    assert forall k | k in step.unreadable :: k in s.spool;
    forall e | e in s'.quarantine
      ensures InLog(s'.log, e) && e.sequence !in s'.spool
    {
      if e !in s.quarantine {
        var k :| k in step.unreadable && s.spool[k] == e;
      }
    }
  }

  lemma {:induction false} RunApart(c: Config, steps: seq<Step>)
    ensures Apart(Run(c, steps))
  {
    hide Apart, Enabled, Next, Inv;
    if steps == [] {
      StartApart();
    } else {
      var front, step := steps[..|steps| - 1], steps[|steps| - 1];
      RunApart(c, front);
      RunKeepsInv(c, front);
      if Enabled(c, Run(c, front), step) {
        StepApart(c, Run(c, front), step);
      }
    }
  }

  lemma StartApart()
    ensures Apart(START)
  {
  }

  /** Every appended record is one the collector accepts, and no batch is too large for it. */
  ghost predicate Accommodating(s: State) {
    && (forall i | 0 <= i < |s.log| :: Deliverable(s.log[i].envelope))
    && forall batch | AtLarge(s, batch) :: |batch| <= MAX_BATCH
  }

  lemma LogDelivers(c: Config, s: State, batch: seq<Envelope>)
    requires Inv(c, s) && Accommodating(s) && Closed(c, s.log, s.quarantine, s.db, batch)
    ensures forall e | e in batch :: Deliverable(e)
    ensures forall k | k in s.spool :: Deliverable(s.spool[k])
  {
    hide Deliverable, LogSound, DrawnSound, NothingLost, WorkerSound, NetworkSound, CollectorSound, Committed;
    forall e | InLog(s.log, e)
      ensures Deliverable(e)
    {
      var i :| 0 <= i < |s.log| && s.log[i].envelope == e;
    }
  }

  /** A batch at large with the one record and without the other breaks the order when it is served. */
  lemma BatchStrikes(c: Config, steps: seq<Step>, i: nat, j: nat, batch: seq<Envelope>, p: Publisher) returns (more: seq<Step>)
    requires var s := Run(c, steps);
             && Accommodating(s) && AtLarge(s, batch)
             && Earlier(s.log, i, j) && s.log[i].publisher == p && !Committed(s.db, c.nk, s.log[i].envelope)
             && s.log[j].envelope in batch && s.log[i].envelope !in batch
    ensures Benign(more, p) && !OrderKept(c, Run(c, steps + more).log, Run(c, steps + more).db, p)
  {
    hide Run, Committed, Ingest, Trustworthy, Inv, Deliverable;
    var s := Run(c, steps);
    RunKeepsInv(c, steps);
    var sending: seq<Step> := if batch in s.sent then [] else [Send];
    var s1 := if batch in s.sent then s else s.(sent := s.sent + {batch});
    if batch in s.sent {
      assert steps + sending == steps;
    } else {
      Go(c, steps, Send, s, s1);
    }
    RunKeepsInv(c, steps + sending);
    SentCloses(c, s1, batch);
    assert Accommodating(s1);
    LogDelivers(c, s1, batch);
    IngestGoes(c, s1, batch, []);
    IngestClosedIn(c, s1, batch);
    var serve := ServeRequest(batch, []);
    RunOne(c, steps + sending, serve);
    more := sending + [serve];
    assert steps + more == steps + sending + [serve];
    var s2 := Run(c, steps + more);
    assert Earlier(s2.log, i, j) && Committed(s2.db, c.nk, s2.log[j].envelope) && !Committed(s2.db, c.nk, s2.log[i].envelope);
  }

  lemma SpoolStrikes(c: Config, steps: seq<Step>, i: nat, j: nat, p: Publisher) returns (more: seq<Step>)
    requires var s := Run(c, steps);
             && Accommodating(s)
             && Earlier(s.log, i, j) && s.log[i].publisher == p && !Committed(s.db, c.nk, s.log[i].envelope)
             && s.log[i].envelope in s.quarantine
             && s.log[j].envelope.sequence in s.spool && s.spool[s.log[j].envelope.sequence] == s.log[j].envelope
    ensures Benign(more, p) && !OrderKept(c, Run(c, steps + more).log, Run(c, steps + more).db, p)
  {
    hide Run, Committed, Ingest, Trustworthy, Inv, Deliverable;
    var s := Run(c, steps);
    RunKeepsInv(c, steps);
    RunApart(c, steps);
    NothingCloses(c, s);
    LogDelivers(c, s, []);
    var s1 := s.(worker := Idle, drawn := map[]);
    Go(c, steps, Crash, s, s1);
    var rest := DeliverUpTo(c, steps + [Crash], s.log[j].envelope.sequence);
    more := [Crash] + rest;
    assert steps + more == steps + [Crash] + rest;
    BenignConcat([Crash], rest, p);
    QuarantinedAway(c, s, s.log[i].envelope);
    var s2 := Run(c, steps + more);
    assert Earlier(s2.log, i, j) && Committed(s2.db, c.nk, s2.log[j].envelope) && !Committed(s2.db, c.nk, s2.log[i].envelope);
  }

  lemma NothingCloses(c: Config, s: State)
    ensures Closed(c, s.log, s.quarantine, s.db, [])
  {
  }

  lemma QuarantinedAway(c: Config, s: State, e: Envelope)
    requires Inv(c, s) && Apart(s) && e in s.quarantine
    ensures e !in s.spool.Values
  {
    hide LogSound, DrawnSound, NothingLost, WorkerSound, NetworkSound, CollectorSound;
    forall k | k in s.spool
      ensures s.spool[k] != e
    {
      assert s.spool[k].sequence == k;
    }
  }

  /** From a reachable state whose committed records of the publisher are a prefix, with records and
      batches the collector accepts: some continuation in which nothing more turns unreadable and the
      publisher appends nothing breaks the prefix, if and only if an uncommitted record of it is in
      quarantine and a later one can still come without it, from the spool or in a batch at large. */
  lemma BreakableExactly(c: Config, steps: seq<Step>, p: Publisher)
    requires Accommodating(Run(c, steps)) && PrefixHolds(c, Run(c, steps).db, Mine(Run(c, steps).log, p))
    ensures (exists more ::
               Benign(more, p) && !PrefixHolds(c, Run(c, steps + more).db, Mine(Run(c, steps + more).log, p)))
            <==> Exposed(c, Run(c, steps), p)
  {
    hide Run, Committed, PrefixHolds, OrderKept, Benign, Accommodating;
    var s := Run(c, steps);
    PrefixIsOrder(c, s.log, s.db, p);
    if Exposed(c, s, p) {
      var more := Strikes(c, steps, p);
      PrefixIsOrder(c, Run(c, steps + more).log, Run(c, steps + more).db, p);
    } else {
      forall more | Benign(more, p)
        ensures PrefixHolds(c, Run(c, steps + more).db, Mine(Run(c, steps + more).log, p))
      {
        BenignRun(c, steps, more, p);
        PrefixIsOrder(c, Run(c, steps + more).log, Run(c, steps + more).db, p);
      }
    }
  }

  lemma Strikes(c: Config, steps: seq<Step>, p: Publisher) returns (more: seq<Step>)
    requires Accommodating(Run(c, steps)) && Exposed(c, Run(c, steps), p)
    ensures Benign(more, p) && !OrderKept(c, Run(c, steps + more).log, Run(c, steps + more).db, p)
  {
    hide Run, Committed, OrderKept, Benign, Accommodating;
    var s := Run(c, steps);
    var i: nat, j: nat :|
      && Earlier(s.log, i, j) && s.log[i].publisher == p
      && s.log[i].envelope in s.quarantine && !Committed(s.db, c.nk, s.log[i].envelope)
      && CanCome(s, s.log[j].envelope, s.log[i].envelope);
    var f := s.log[j].envelope;
    if f.sequence in s.spool && s.spool[f.sequence] == f {
      more := SpoolStrikes(c, steps, i, j, p);
    } else {
      var batch :| AtLarge(s, batch) && f in batch && s.log[i].envelope !in batch;
      more := BatchStrikes(c, steps, i, j, batch, p);
    }
  }

  /** In particular the prefix is safe, whatever is appended, as long as the publisher's quarantined
      records are committed and nothing more turns unreadable. */
  lemma {:induction false} CommittedQuarantineIsSafe(c: Config, steps: seq<Step>, more: seq<Step>, p: Publisher)
    requires var s := Run(c, steps);
             forall i | 0 <= i < |s.log| && s.log[i].publisher == p && s.log[i].envelope in s.quarantine ::
               Committed(s.db, c.nk, s.log[i].envelope)
    requires forall step | step in more && step.Read? :: step.unreadable == {}
    ensures var s := Run(c, steps + more);
            && PrefixHolds(c, s.db, Mine(s.log, p))
            && forall i | 0 <= i < |s.log| && s.log[i].publisher == p && s.log[i].envelope in s.quarantine ::
                 Committed(s.db, c.nk, s.log[i].envelope)
  {
    hide Run, Committed, Enabled, Next, PrefixHolds;
    if more == [] {
      assert steps + more == steps;
    } else {
      var front, step := more[..|more| - 1], more[|more| - 1];
      assert step in more;
      CommittedQuarantineIsSafe(c, steps, front, p);
      assert steps + more == (steps + front) + [step];
      var s := Run(c, steps + front);
      RunKeepsInv(c, steps + front);
      RunApart(c, steps + front);
      if Enabled(c, s, step) {
        RunOne(c, steps + front, step);
        QuarantineSame(c, s, step);
        GrowingCommits(c, s, Next(c, s, step), step);
        NewIsReadable(c, s, step);
      } else {
        Disabled(c, steps + front, step, p);
      }
    }
    var n := CommittedIsPrefix(c, steps + more, p);
    HoldsBy(c, Run(c, steps + more), p, n);
  }

  lemma HoldsBy(c: Config, s: State, p: Publisher, n: nat)
    requires CommittedPrefix(c, s.db, Mine(s.log, p), n)
    ensures PrefixHolds(c, s.db, Mine(s.log, p))
  {
    hide CommittedPrefix;
  }

  lemma NewIsReadable(c: Config, s: State, step: Step)
    requires Inv(c, s) && Apart(s) && Enabled(c, s, step)
    ensures var s' := Next(c, s, step);
            forall i | |s.log| <= i < |s'.log| :: s'.log[i].envelope !in s.quarantine
  {
    hide Ingest, Trustworthy, MessageId, ValidEnvelope, LogSound, NothingLost, WorkerSound, NetworkSound, CollectorSound, Picked;
    var s' := Next(c, s, step);
    forall i, e | |s.log| <= i < |s'.log| && e in s.quarantine
      ensures e != s'.log[i].envelope
    {
      var k :| 0 <= k < |s.log| && s.log[k].envelope == e;
      assert step.Append? && s.log[k].envelope.sequence != s.drawn[step.publisher];
    }
  }

  predicate NoneUnreadable(more: seq<Step>) {
    forall step | step in more && step.Read? :: step.unreadable == {}
  }

  /** The publisher can append a record now, and the collector would accept it. */
  predicate CanAppend(c: Config, s: State, p: Publisher, append: Step) {
    && append.Append? && append.publisher == p && s.lastSequence < MAX_U64
    && (append.kind == ProcessAlertKind ==> p == c.alertPublisher)
    && var e := Built(c, s.lastSequence + 1, append.observedNs, append.kind, append.payload, append.attributes);
       ValidEnvelope(e) && Deliverable(e)
  }

  /** After a restart the publisher appends a record, which then comes after everything it has in
      quarantine. */
  lemma AppendsBehind(c: Config, steps: seq<Step>, p: Publisher, append: Step) returns (more: seq<Step>)
    requires Accommodating(Run(c, steps)) && CanAppend(c, Run(c, steps), p, append)
    ensures NoneUnreadable(more)
    ensures var s, s' := Run(c, steps), Run(c, steps + more);
            && Accommodating(s') && s'.db == s.db && s'.quarantine == s.quarantine
            && |s'.log| == |s.log| + 1 && s'.log[..|s.log|] == s.log && s'.log[|s.log|].publisher == p
            && var e := s'.log[|s.log|].envelope;
               e.sequence in s'.spool && s'.spool[e.sequence] == e
  {
    hide Run, ValidEnvelope, MessageId, Deliverable, Inv;
    var s := Run(c, steps);
    RunKeepsInv(c, steps);
    var n := s.lastSequence + 1;
    var e := Built(c, n, append.observedNs, append.kind, append.payload, append.attributes);
    NextIsFree(c, s);
    var s1 := s.(worker := Idle, drawn := map[]);
    var s2 := s1.(lastSequence := n, drawn := map[p := n]);
    var s3 := s2.(spool := s.spool[n := e], log := s.log + [Entry(p, e)], drawn := map[]);
    assert s2.drawn - {p} == map[];
    Go(c, steps, Crash, s, s1);
    Go(c, steps + [Crash], Draw(p), s1, s2);
    Go(c, steps + [Crash] + [Draw(p)], append, s2, s3);
    more := [Crash, Draw(p), append];
    assert steps + more == steps + [Crash] + [Draw(p)] + [append];
  }

  lemma NextIsFree(c: Config, s: State)
    requires Inv(c, s)
    ensures s.lastSequence + 1 !in s.spool
  {
    hide LogSound, NothingLost, WorkerSound, NetworkSound, CollectorSound;
    forall k | k in s.spool
      ensures k <= s.lastSequence
    {
      var i :| 0 <= i < |s.log| && s.log[i].envelope == s.spool[k];
    }
  }

  /** From a reachable state whose committed records of the publisher are a prefix, if the publisher can
      append: some continuation in which nothing more turns unreadable breaks the prefix, if and only if
      an uncommitted record of it is in quarantine. */
  lemma AppendBreaksExactly(c: Config, steps: seq<Step>, p: Publisher, append: Step)
    requires Accommodating(Run(c, steps)) && PrefixHolds(c, Run(c, steps).db, Mine(Run(c, steps).log, p))
    requires CanAppend(c, Run(c, steps), p, append)
    ensures (exists more ::
               NoneUnreadable(more) && !PrefixHolds(c, Run(c, steps + more).db, Mine(Run(c, steps + more).log, p)))
            <==> var s := Run(c, steps);
                 exists i :: && 0 <= i < |s.log| && s.log[i].publisher == p
                             && s.log[i].envelope in s.quarantine && !Committed(s.db, c.nk, s.log[i].envelope)
  {
    hide Run, Committed, PrefixHolds, OrderKept, Accommodating, CanAppend;
    var s := Run(c, steps);
    if i :| && 0 <= i < |s.log| && s.log[i].publisher == p
            && s.log[i].envelope in s.quarantine && !Committed(s.db, c.nk, s.log[i].envelope) {
      var first := AppendsBehind(c, steps, p, append);
      var s' := Run(c, steps + first);
      assert s'.log[i] == s'.log[..|s.log|][i];
      var rest := SpoolStrikes(c, steps + first, i, |s.log|, p);
      assert steps + first + rest == steps + (first + rest);
      var t := Run(c, steps + (first + rest));
      PrefixIsOrder(c, t.log, t.db, p);
      assert NoneUnreadable(first + rest) by {
        BenignIsReadable(rest, p);
      }
    } else {
      forall more | NoneUnreadable(more)
        ensures PrefixHolds(c, Run(c, steps + more).db, Mine(Run(c, steps + more).log, p))
      {
        CommittedQuarantineIsSafe(c, steps, more, p);
      }
    }
  }

  lemma BenignIsReadable(more: seq<Step>, p: Publisher)
    requires Benign(more, p)
    ensures NoneUnreadable(more)
  {
  }
}
