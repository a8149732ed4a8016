/** The spool directory under the delivery protocol (src/spool.rs, src/distributed.rs).

    The protocol of `Delivery` keeps the spool as a table of envelopes, without sizes, names or
    damaged files.  Here its steps act on the directory and the sequence file, under the limits of the
    spool, and files may become unreadable at any time.  Every run of that system is a run of the
    protocol, so what `Delivery` proves holds of the directory. */
module SpoolRefinement {
  import opened Prelude
  import opened Telemetry
  import opened Spool
  import opened Delivery

  /** The directory holds the records of the table under their names; a damaged file still stands for
      the record it held. */
  ghost predicate Represents(records: Directory, spool: map<nat, Envelope>) {
    && WellNamed(records)
    && Stored(records).Keys == spool.Keys
    && forall k | k in spool :: Stored(records)[k].content.Some? ==> Stored(records)[k].content.value == spool[k]
  }

  function LastOf(sequence: SequenceFile): Option<nat> {
    match sequence
    case Missing => Some(0)
    case Holds(last) => Some(last)
    case Garbled => None
  }

  datatype Limits = Limits(maxBytes: nat, maxAgeSecs: nat)

  datatype Agent = Agent(records: Directory, sequence: SequenceFile, protocol: State)

  /** A protocol step with the size of the record it writes and the time, or damage to a file. */
  datatype AgentStep = Does(step: Step, size: nat, now: nat) | Damage(name: string, file: File)

  const FRESH := Agent(map[], Missing, START)

  // ---- The steps on the directory ------------------------------------------------------------------------

  ghost function DamagedKeys(records: Directory, keys: seq<nat>): set<nat> {
    set k | k in keys && k in Stored(records) && Stored(records)[k].content.None?
  }

  /** When the directory and the sequence file let a step happen. */
  ghost predicate Allows(c: Config, l: Limits, a: Agent, step: Step, size: nat, now: nat) {
    var s := a.protocol;
    match step
    case Draw(p) => p !in s.drawn && LastOf(a.sequence).Some? && LastOf(a.sequence).value < MAX_U64
    case Append(p, observedNs, kind, payload, attributes) =>
      && p in s.drawn && (kind == ProcessAlertKind ==> p == c.alertPublisher)
      && Accepts(a.records, l.maxBytes, l.maxAgeSecs, Built(c, s.drawn[p], observedNs, kind, payload, attributes), size, now)
    case Read(limit, keys, unreadable) =>
      && s.worker.Idle? && Picked(Stored(a.records), limit, keys)
      && unreadable == DamagedKeys(a.records, keys)
    case Remove => s.worker.Removing?
    case _ => Enabled(c, s, step)
  }

  /** What a step does to the record files. */
  ghost function FilesAfter(c: Config, a: Agent, step: Step, size: nat, now: nat): Directory {
    var s := a.protocol;
    match step
    case Append(p, observedNs, kind, payload, attributes) =>
      if p !in s.drawn then a.records else
      var e := Built(c, s.drawn[p], observedNs, kind, payload, attributes);
      a.records[FileName(e.sequence) := File(Some(e), size, now)]
    case Read(_, keys, _) => a.records - Unreadable(a.records, FileNames(keys))
    case Remove =>
      if s.worker.Removing? && s.worker.todo != [] then a.records - {FileName(s.worker.todo[0].sequence)} else a.records
    case _ => a.records
  }

  ghost function SequenceAfter(a: Agent, step: Step): SequenceFile {
    if step.Draw? && LastOf(a.sequence).Some? then Holds(LastOf(a.sequence).value + 1) else a.sequence
  }

  ghost predicate Possible(c: Config, l: Limits, a: Agent, step: AgentStep) {
    match step
    case Does(step, size, now) => Allows(c, l, a, step, size, now)
    case Damage(name, file) => name in a.records && file.content.None? && file.bytes <= a.records[name].bytes
  }

  ghost function AgentNext(c: Config, a: Agent, step: AgentStep): Agent {
    match step
    case Does(step, size, now) =>
      Agent(FilesAfter(c, a, step, size, now), SequenceAfter(a, step),
            if Enabled(c, a.protocol, step) then Next(c, a.protocol, step) else a.protocol)
    case Damage(name, file) => a.(records := a.records[name := file])
  }

  ghost function AgentRun(c: Config, l: Limits, steps: seq<AgentStep>): Agent {
    if steps == [] then FRESH else
    var a := AgentRun(c, l, steps[..|steps| - 1]);
    if Possible(c, l, a, steps[|steps| - 1]) then AgentNext(c, a, steps[|steps| - 1]) else a
  }

  /** The protocol steps among those taken. */
  ghost function Taken(c: Config, l: Limits, steps: seq<AgentStep>): seq<Step> {
    if steps == [] then [] else
    var last := steps[|steps| - 1];
    var taken := Possible(c, l, AgentRun(c, l, steps[..|steps| - 1]), last) && last.Does?;
    Taken(c, l, steps[..|steps| - 1]) + if taken then [last.step] else []
  }

  /** The directory and the sequence file stand for the protocol's state, within the byte limit. */
  ghost predicate Refines(c: Config, l: Limits, a: Agent) {
    && Inv(c, a.protocol)
    && Represents(a.records, a.protocol.spool)
    && LastOf(a.sequence) == Some(a.protocol.lastSequence)
    && Total(a.records) <= l.maxBytes
  }

  // ---- One step ----------------------------------------------------------------------------------------------

  lemma StoredAt(records: Directory, k: nat)
    requires k < TWO_64
    ensures k in Stored(records) <==> FileName(k) in records
    ensures k in Stored(records) ==> Stored(records)[k] == records[FileName(k)]
  {
  }

  lemma WriteKeys(records: Directory, spool: map<nat, Envelope>, sequence: nat, file: File)
    requires Represents(records, spool) && sequence < TWO_64
    requires file.content.Some? && file.content.value.sequence == sequence
    ensures var records' := records[FileName(sequence) := file];
            && WellNamed(records') && Stored(records').Keys == spool.Keys + {sequence}
            && forall k | k in Stored(records') ::
                 Stored(records')[k] == if k == sequence then file else Stored(records)[k]
    ensures FileName(sequence) in records <==> sequence in spool
  {
    hide FileName, LexLess;
    var records' := records[FileName(sequence) := file];
    StoredAt(records, sequence);
    forall k: nat | k < TWO_64
      ensures FileName(k) == FileName(sequence) <==> k == sequence
    {
      FileNameOrder(k, sequence);
    }
    assert Stored(records').Keys == spool.Keys + {sequence};
  }

  lemma WriteRefines(records: Directory, spool: map<nat, Envelope>, e: Envelope, size: nat, now: nat)
    requires Represents(records, spool) && e.sequence < TWO_64
    ensures Represents(records[FileName(e.sequence) := File(Some(e), size, now)], spool[e.sequence := e])
    ensures FileName(e.sequence) in records <==> e.sequence in spool
  {
    hide FileName, WellNamed, Stored;
    WriteKeys(records, spool, e.sequence, File(Some(e), size, now));
  }

  lemma RemoveRefines(records: Directory, spool: map<nat, Envelope>, gone: set<nat>, names: set<string>)
    requires Represents(records, spool)
    requires forall k: nat | k < TWO_64 :: k in gone <==> FileName(k) in names
    ensures Represents(records - names, spool - gone)
  {
    hide FileName, LexLess;
    assert Stored(records - names).Keys == (spool - gone).Keys;
  }

  lemma DamageRefines(records: Directory, spool: map<nat, Envelope>, name: string, file: File)
    requires Represents(records, spool) && name in records
    requires file.content.None? && file.bytes <= records[name].bytes
    ensures Represents(records[name := file], spool) && Total(records[name := file]) <= Total(records)
  {
    hide FileName, LexLess, Total;
    assert Stored(records[name := file]).Keys == Stored(records).Keys;
    TotalRemove(records, name);
    TotalRemove(records[name := file], name);
    assert records[name := file] - {name} == records - {name};
  }

  /** The spool's readable records among the keys are the batch the protocol reads. */
  lemma {:induction false} ReadableIsBatch(records: Directory, spool: map<nat, Envelope>, keys: seq<nat>, unreadable: set<nat>)
    requires Represents(records, spool) && (forall k | k in keys :: k in spool)
    requires forall k | k in keys :: k in unreadable <==> Stored(records)[k].content.None?
    ensures Readable(Stored(records), keys) == Batch(spool, keys, unreadable)
  {
    hide Stored, FileName;
    if keys != [] {
      assert keys[|keys| - 1] in keys;
      ReadableIsBatch(records, spool, keys[..|keys| - 1], unreadable);
    }
  }

  lemma ReadRefines(records: Directory, spool: map<nat, Envelope>, limit: nat, keys: seq<nat>)
    requires Represents(records, spool) && Picked(Stored(records), limit, keys)
    ensures Picked(spool, limit, keys)
    ensures Readable(Stored(records), keys) == Batch(spool, keys, DamagedKeys(records, keys))
    ensures Represents(records - Unreadable(records, FileNames(keys)), spool - DamagedKeys(records, keys))
  {
    hide FileName, LexLess, Readable, Batch;
    forall s | s in spool
      ensures s in Stored(records)
    {
    }
    ReadableIsBatch(records, spool, keys, DamagedKeys(records, keys));
    var gone, names := DamagedKeys(records, keys), Unreadable(records, FileNames(keys));
    forall k: nat | k < TWO_64
      ensures k in gone <==> FileName(k) in names
    {
      DamagedName(records, keys, k);
    }
    RemoveRefines(records, spool, gone, names);
  }

  lemma DamagedName(records: Directory, keys: seq<nat>, k: nat)
    requires k < TWO_64 && forall k | k in keys :: k in Stored(records)
    ensures k in DamagedKeys(records, keys) <==> FileName(k) in Unreadable(records, FileNames(keys))
  {
    hide FileName, LexLess;
    var names := FileNames(keys);
    if k in keys {
      var i :| 0 <= i < |keys| && keys[i] == k;
      assert names[i] == FileName(k);
    }
    if FileName(k) in names {
      var i :| 0 <= i < |names| && names[i] == FileName(k);
      assert keys[i] in keys;
      FileNameOrder(keys[i], k);
    }
  }

  lemma OneGone(records: Directory, spool: map<nat, Envelope>, sequence: nat)
    requires Represents(records, spool) && sequence < TWO_64
    ensures Represents(records - {FileName(sequence)}, spool - {sequence})
    ensures FileName(sequence) in records <==> sequence in spool
    ensures sequence !in spool ==> records - {FileName(sequence)} == records
  {
    hide FileName, LexLess;
    StoredAt(records, sequence);
    forall k: nat | k < TWO_64
      ensures k in {sequence} <==> FileName(k) in {FileName(sequence)}
    {
      FileNameOrder(k, sequence);
    }
    RemoveRefines(records, spool, {sequence}, {FileName(sequence)});
  }

  /** What the directory and the sequence file allow is a step of the protocol: a number is drawn, a
      record stored, a batch read, damaged files quarantined or a record removed just as it says. */
  lemma AllowedIsEnabled(c: Config, l: Limits, a: Agent, step: Step, size: nat, now: nat)
    requires Refines(c, l, a) && Allows(c, l, a, step, size, now)
    ensures Enabled(c, a.protocol, step)
  {
    hide Picked, Accepts, FileName, Represents, Total, Stored;
    var s := a.protocol;
    match step
    case Append(p, observedNs, kind, payload, attributes) =>
      var e := Built(c, s.drawn[p], observedNs, kind, payload, attributes);
      assert e.sequence < TWO_64;
      WriteRefines(a.records, s.spool, e, size, now);
      Unwrapped(a.records, l, e, size, now);
    case Read(limit, keys, _) => ReadRefines(a.records, s.spool, limit, keys);
    case _ =>
  }

  lemma Unwrapped(records: Directory, l: Limits, e: Envelope, size: nat, now: nat)
    requires Accepts(records, l.maxBytes, l.maxAgeSecs, e, size, now)
    ensures ValidEnvelope(e) && FileName(e.sequence) !in records
    ensures Total(records) <= l.maxBytes < MAX_U64 ==>
              Total(records[FileName(e.sequence) := File(Some(e), size, now)]) <= l.maxBytes
  {
    hide FileName, Total, ValidEnvelope;
    TotalInsert(records, FileName(e.sequence), File(Some(e), size, now));
  }

  lemma FilesRefine(c: Config, l: Limits, a: Agent, step: Step, size: nat, now: nat)
    requires l.maxBytes < MAX_U64 && Refines(c, l, a) && Allows(c, l, a, step, size, now)
    requires Enabled(c, a.protocol, step)
    ensures Represents(FilesAfter(c, a, step, size, now), Next(c, a.protocol, step).spool)
    ensures Total(FilesAfter(c, a, step, size, now)) <= l.maxBytes
    ensures step.Read? ==>
              Next(c, a.protocol, step).worker
              == var batch := Readable(Stored(a.records), step.keys); if batch == [] then Idle else Holding(batch)
  {
    hide Picked, Accepts, FileName, Represents, Total, Stored, Readable, Batch, Unreadable, DamagedKeys, Collector.Ingest;
    var s := a.protocol;
    match step
    case Append(p, observedNs, kind, payload, attributes) =>
      var e := Built(c, s.drawn[p], observedNs, kind, payload, attributes);
      WriteRefines(a.records, s.spool, e, size, now);
      Unwrapped(a.records, l, e, size, now);
    case Read(limit, keys, _) =>
      ReadRefines(a.records, s.spool, limit, keys);
      TotalShrinks(a.records, Unreadable(a.records, FileNames(keys)));
    case Remove =>
      if s.worker.todo != [] {
        TodoFits(c, s);
        OneGone(a.records, s.spool, s.worker.todo[0].sequence);
        TotalShrinks(a.records, {FileName(s.worker.todo[0].sequence)});
      }
    case _ =>
  }

  lemma TodoFits(c: Config, s: State)
    requires Inv(c, s) && s.worker.Removing? && s.worker.todo != []
    ensures s.worker.todo[0].sequence < TWO_64
  {
    hide LogSound, NothingLost, NetworkSound, CollectorSound;
    assert s.worker.todo[0] in s.worker.todo;
  }

  lemma StepRefines(c: Config, l: Limits, a: Agent, step: AgentStep)
    requires l.maxBytes < MAX_U64 && Refines(c, l, a) && Possible(c, l, a, step)
    ensures Refines(c, l, AgentNext(c, a, step))
    ensures step.Does? ==> Enabled(c, a.protocol, step.step)
  {
    hide Inv, Represents, Total, FilesAfter;
    match step
    case Does(step, size, now) =>
      AllowedIsEnabled(c, l, a, step, size, now);
      FilesRefine(c, l, a, step, size, now);
      StepKeepsInv(c, a.protocol, step);
    case Damage(name, file) => DamageRefines(a.records, a.protocol.spool, name, file);
  }

  // ---- Runs --------------------------------------------------------------------------------------------------

  /** Every run on the directory is a run of the protocol; the files stand for its spool, the sequence
      file for its last number, and the bytes never exceed the limit. */
  lemma {:induction false} RunRefines(c: Config, l: Limits, steps: seq<AgentStep>)
    requires l.maxBytes < MAX_U64
    ensures var a := AgentRun(c, l, steps);
            && a.protocol == Run(c, Taken(c, l, steps))
            && Represents(a.records, a.protocol.spool)
            && LastOf(a.sequence) == Some(a.protocol.lastSequence)
            && Total(a.records) <= l.maxBytes
    ensures Refines(c, l, AgentRun(c, l, steps))
  {
    hide Possible, AgentNext, Inv, Represents, Total;
    if steps == [] {
      FreshRefines(c, l);
    } else {
      var front, last := steps[..|steps| - 1], steps[|steps| - 1];
      RunRefines(c, l, front);
      if Possible(c, l, AgentRun(c, l, front), last) {
        StepRefines(c, l, AgentRun(c, l, front), last);
        ProtocolAfter(c, AgentRun(c, l, front), last);
        var taken := Taken(c, l, front);
        if last.Does? {
          assert (taken + [last.step])[..|taken|] == taken;
        } else {
          assert taken + [] == taken;
        }
      } else {
        assert Taken(c, l, front) + [] == Taken(c, l, front);
      }
    }
  }

  lemma ProtocolAfter(c: Config, a: Agent, step: AgentStep)
    requires step.Does? ==> Enabled(c, a.protocol, step.step)
    ensures AgentNext(c, a, step).protocol == if step.Does? then Next(c, a.protocol, step.step) else a.protocol
  {
    hide FilesAfter, SequenceAfter;
  }

  lemma FreshRefines(c: Config, l: Limits)
    ensures Refines(c, l, FRESH)
  {
    StartInv(c);
    assert Stored(map[]).Keys == {};
  }

  /** No file is lost: an appended record has a file that reads as it or is damaged, or it is in
      quarantine, or committed at the collector. */
  lemma NoFileLost(c: Config, l: Limits, steps: seq<AgentStep>, i: nat)
    requires l.maxBytes < MAX_U64 && i < |AgentRun(c, l, steps).protocol.log|
    ensures var a := AgentRun(c, l, steps);
            var e := a.protocol.log[i].envelope;
            || (FileName(e.sequence) in a.records
                && (a.records[FileName(e.sequence)].content.Some? ==> a.records[FileName(e.sequence)].content == Some(e)))
            || e in a.protocol.quarantine
            || Collector.Committed(a.protocol.db, c.nk, e)
  {
    hide AgentRun, Taken, Run, Inv, FileName, Total, Collector.Committed, WellNamed;
    RunRefines(c, l, steps);
    NoLoss(c, Taken(c, l, steps), i);
  }

  // ---- The spool's methods are these steps ---------------------------------------------------------------------

  ghost predicate Mirrors(disk: DiskSpool, l: Limits, a: Agent)
    reads disk
  {
    disk.maxBytes == l.maxBytes && disk.maxAgeSecs == l.maxAgeSecs && disk.records == a.records && disk.sequence == a.sequence
  }

  /** The number handed out is the one the protocol draws. */
  method DrawNumber(disk: DiskSpool, ghost c: Config, ghost l: Limits, ghost a: Agent, ghost p: Publisher)
      returns (next: Result<nat, string>)
    requires l.maxBytes < MAX_U64 && Refines(c, l, a) && Mirrors(disk, l, a) && p !in a.protocol.drawn
    modifies disk
    ensures next.Ok? <==> Allows(c, l, a, Draw(p), 0, 0)
    ensures next.Ok? ==>
              && Mirrors(disk, l, AgentNext(c, a, Does(Draw(p), 0, 0)))
              && AgentNext(c, a, Does(Draw(p), 0, 0)).protocol.drawn == a.protocol.drawn[p := next.value]
    ensures next.Err? ==> Mirrors(disk, l, a)
  {
    hide Represents, Inv, Total;
    next := disk.NextSequence();
  }

  /** A record is written exactly when the protocol's step may happen, and then as it says. */
  method StoreRecord(disk: DiskSpool, ghost c: Config, ghost l: Limits, ghost a: Agent, e: Envelope, size: nat, now: nat,
                     ghost step: Step)
      returns (accepted: bool)
    requires l.maxBytes < MAX_U64 && Refines(c, l, a) && Mirrors(disk, l, a)
    requires step.Append? && step.publisher in a.protocol.drawn
    requires step.kind == ProcessAlertKind ==> step.publisher == c.alertPublisher
    requires e == Built(c, a.protocol.drawn[step.publisher], step.observedNs, step.kind, step.payload, step.attributes)
    modifies disk
    ensures accepted <==> Allows(c, l, a, step, size, now)
    ensures Mirrors(disk, l, if accepted then AgentNext(c, a, Does(step, size, now)) else a)
  {
    hide Represents, Inv, Total, FileName, Accepts;
    accepted := disk.Append(e, size, now);
  }

  /** The batch returned is the one the protocol's worker holds, and the damaged files are gone. */
  method ReadBatch(disk: DiskSpool, ghost c: Config, ghost l: Limits, ghost a: Agent, limit: nat)
      returns (batch: seq<Envelope>, ghost step: Step)
    requires l.maxBytes < MAX_U64 && Refines(c, l, a) && Mirrors(disk, l, a) && a.protocol.worker.Idle?
    modifies disk
    ensures step.Read? && step.limit == limit && Allows(c, l, a, step, 0, 0)
    ensures Mirrors(disk, l, AgentNext(c, a, Does(step, 0, 0)))
    ensures AgentNext(c, a, Does(step, 0, 0)).protocol.worker == if batch == [] then Idle else Holding(batch)
  {
    hide Inv, Total, FileName, Stored, Readable, WellNamed, Unreadable, FileNames, Picked;
    ghost var keys;
    batch, keys := disk.Pending(limit);
    step := Read(limit, keys, DamagedKeys(a.records, keys));
    AllowedIsEnabled(c, l, a, step, 0, 0);
    FilesRefine(c, l, a, step, 0, 0);
  }

  /** `n` removals of the worker. */
  ghost function Removals(c: Config, a: Agent, n: nat): Agent {
    if n == 0 then a else AgentNext(c, Removals(c, a, n - 1), Does(Remove, 0, 0))
  }

  lemma OneRemoval(c: Config, l: Limits, a: Agent)
    requires l.maxBytes < MAX_U64 && Refines(c, l, a) && a.protocol.worker.Removing?
    ensures var todo := a.protocol.worker.todo;
            var b := AgentNext(c, a, Does(Remove, 0, 0));
            && Refines(c, l, b) && b.sequence == a.sequence
            && b.records == (if todo == [] then a.records else a.records - {FileName(todo[0].sequence)})
            && b.protocol.worker
               == if todo == [] || FileName(todo[0].sequence) !in a.records then Idle else Removing(todo[1..])
  {
    hide Inv, Represents, Total, FileName;
    StepRefines(c, l, a, Does(Remove, 0, 0));
    var todo := a.protocol.worker.todo;
    if todo != [] {
      TodoFits(c, a.protocol);
      OneGone(a.records, a.protocol.spool, todo[0].sequence);
    }
  }

  lemma {:induction false} RemovedSoFar(c: Config, l: Limits, a: Agent, n: nat)
    requires l.maxBytes < MAX_U64 && Refines(c, l, a) && a.protocol.worker.Removing?
    requires var batch := a.protocol.worker.todo;
             n <= |batch| && forall i | 0 <= i < n :: FileName(batch[i].sequence) in a.records - DiskSpool.Names(batch[..i])
    ensures var b, batch := Removals(c, a, n), a.protocol.worker.todo;
            && Refines(c, l, b) && b.sequence == a.sequence && b.protocol.worker == Removing(batch[n..])
            && b.records == a.records - DiskSpool.Names(batch[..n])
  {
    hide Refines, AgentNext, FileName;
    var batch := a.protocol.worker.todo;
    if n == 0 {
      assert DiskSpool.Names(batch[..0]) == {};
      assert batch[0..] == batch;
    } else {
      RemovedSoFar(c, l, a, n - 1);
      OneRemoval(c, l, Removals(c, a, n - 1));
      DiskSpool.NamesGrow(batch, n - 1);
      assert batch[n - 1..][1..] == batch[n..];
    }
  }

  /** Acknowledging a batch is removing it record by record until the worker is idle again. */
  method RemoveBatch(disk: DiskSpool, ghost c: Config, ghost l: Limits, ghost a: Agent, batch: seq<Envelope>)
      returns (ok: bool, ghost removed: nat)
    requires l.maxBytes < MAX_U64 && Refines(c, l, a) && Mirrors(disk, l, a) && a.protocol.worker == Removing(batch)
    modifies disk
    ensures removed <= |batch| && (ok <==> removed == |batch|)
    ensures Mirrors(disk, l, Removals(c, a, removed + 1)) && Removals(c, a, removed + 1).protocol.worker == Idle
  {
    hide Refines, AgentNext, FileName;
    ok, removed := disk.Acknowledge(batch);
    RemovedSoFar(c, l, a, removed);
    OneRemoval(c, l, Removals(c, a, removed));
  }
}
