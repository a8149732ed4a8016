/** The durable lifecycle of process alerts (src/alert.rs).

    The state file is the records last written.  A persist replaces the whole file or fails and
    leaves it alone; the records in memory have changed in both cases. */
module Alerts {
  import opened Prelude
  import opened Telemetry

  datatype AlertStatus = Firing | Acknowledged | Resolved | Suppressed

  datatype AlertRecord = AlertRecord(
    instanceId: string, ruleId: string, processName: string, status: AlertStatus,
    firstNs: nat, lastNs: nat, transitionCount: nat, detail: string)

  type Records = map<string, AlertRecord>

  datatype Error = PersistFailed | UnknownInstance | ResolvedCannotBeAcknowledged

  function StatusName(status: AlertStatus): string {
    match status
    case Firing => "firing"
    case Acknowledged => "acknowledged"
    case Resolved => "resolved"
    case Suppressed => "suppressed"
  }

  lemma StatusNamesDiffer(a: AlertStatus, b: AlertStatus)
    ensures StatusName(a) == StatusName(b) <==> a == b
  {
    assert |StatusName(Firing)| == 6 && |StatusName(Acknowledged)| == 12 && |StatusName(Resolved)| == 8;
    assert |StatusName(Suppressed)| == 10;
  }

  function Key(ruleId: string, processName: string): string {
    ruleId + [':'] + processName
  }

  function InstanceId(ruleId: string, observedNs: nat): string {
    ruleId + ['-'] + Decimal(observedNs)
  }

  function Signed(n: int): string {
    if n < 0 then ['-'] + Decimal(-n) else Decimal(n)
  }

  function Detail(alert: ProcessAlert): string {
    alert.eventType + " pid=" + Signed(alert.pid) + " ppid=" + Signed(alert.ppid)
  }

  // ---- What an event does to a record -------------------------------------------------------------------------

  function Desired(alert: ProcessAlert): AlertStatus {
    if alert.eventType == "EXIT" then Resolved else Firing
  }

  /** The record after a process event; none when the event changes nothing. */
  function Next(existing: Option<AlertRecord>, alert: ProcessAlert): Option<AlertRecord> {
    var desired := Desired(alert);
    match existing
    case None =>
      if desired == Resolved then None else
      Some(AlertRecord(InstanceId(alert.ruleId, alert.observedNs), alert.ruleId, alert.processName, Firing,
                       alert.observedNs, alert.observedNs, 1, Detail(alert)))
    case Some(r) =>
      if r.status == Suppressed || (r.status == Acknowledged && desired == Firing) || r.status == desired then None else
      Some(AlertRecord(r.instanceId, alert.ruleId, alert.processName, desired,
                       r.firstNs, alert.observedNs, SaturatingAdd(r.transitionCount, 1), Detail(alert)))
  }

  /** The transition that is published. */
  function Emission(existing: Option<AlertRecord>, next: AlertRecord, alert: ProcessAlert): ProcessAlert {
    alert.(
      instanceId := next.instanceId,
      state := StatusName(next.status),
      previousState := if existing.Some? then Some(StatusName(existing.value.status)) else None)
  }

  function Lookup(records: Records, key: string): Option<AlertRecord> {
    if key in records then Some(records[key]) else None
  }

  /** The record an operator means: the first one, in key order, with that instance id. */
  ghost predicate IsFirst(records: Records, instanceId: string, key: string) {
    && key in records && records[key].instanceId == instanceId
    && forall k | k in records && records[k].instanceId == instanceId && k != key :: LexLess(key, k)
  }

  ghost predicate Unknown(records: Records, instanceId: string) {
    forall k | k in records :: records[k].instanceId != instanceId
  }

  function Operated(r: AlertRecord, status: AlertStatus, detail: string, observedNs: nat): AlertRecord {
    r.(status := status, lastNs := observedNs, transitionCount := SaturatingAdd(r.transitionCount, 1), detail := detail)
  }

  // ---- The store ------------------------------------------------------------------------------------------------

  class AlertStore {
    /** The state in memory and the state file. */
    var records: Records
    var disk: Records

    constructor (file: Records)
      ensures records == disk == file
    {
      records, disk := file, file;
    }

    method Persist(succeeds: bool) returns (ok: bool)
      modifies this`disk
      ensures ok == succeeds && disk == if ok then records else old(disk)
    {
      ok := succeeds;
      if ok {
        disk := records;
      }
    }

    method Apply(alert: ProcessAlert, persists: bool) returns (r: Result<Option<ProcessAlert>, Error>)
      modifies this
      ensures State(records, disk) == Step(State(old(records), old(disk)), Observe(alert, persists)).0
      ensures Step(State(old(records), old(disk)), Observe(alert, persists)).1
              == match r
                 case Ok(None) => Silent
                 case Ok(Some(e)) => Emitted(e)
                 case Err(e) => Failed(e)
    {
      hide Detail, InstanceId, StatusName, Key;
      var key := Key(alert.ruleId, alert.processName);
      var desired := Desired(alert);
      var existing := Lookup(records, key);
      if existing.Some? {
        var status := existing.value.status;
        if status == Suppressed || (status == Acknowledged && desired == Firing) {
          return Ok(None);
        }
        if status == desired {
          return Ok(None);
        }
      }
      if desired == Resolved && existing.None? {
        return Ok(None);
      }
      var first := if existing.Some? then existing.value.firstNs else alert.observedNs;
      var transitions := if existing.Some? then SaturatingAdd(existing.value.transitionCount, 1) else 1;
      var instanceId :=
        if existing.Some? then existing.value.instanceId else InstanceId(alert.ruleId, alert.observedNs);
      var record := AlertRecord(
        instanceId, alert.ruleId, alert.processName, desired, first, alert.observedNs, transitions, Detail(alert));
      assert Next(existing, alert) == Some(record);
      records := records[key := record];
      var persisted := Persist(persists);
      if !persisted {
        return Err(PersistFailed);
      }
      return Ok(Some(Emission(existing, record, alert)));
    }

    /** The first record with an instance id, looking through the keys in their order. */
    method Find(instanceId: string) returns (found: Option<string>)
      ensures found.Some? ==> IsFirst(records, instanceId, found.value)
      ensures found.None? ==> Unknown(records, instanceId)
    {
      hide LexLess;
      found := None;
      var left := records.Keys;
      while left != {}
        invariant left <= records.Keys
        invariant found.None? ==> forall k | k in records && k !in left :: records[k].instanceId != instanceId
        invariant found.Some? ==>
                    && found.value in records && found.value !in left && records[found.value].instanceId == instanceId
                    && forall k | k in records && k !in left && records[k].instanceId == instanceId && k != found.value ::
                         LexLess(found.value, k)
        decreases |left|
      {
        var k :| k in left;
        left := left - {k};
        if records[k].instanceId == instanceId {
          if found.None? {
            found := Some(k);
          } else {
            LexTotal(found.value, k);
            if LexLess(k, found.value) {
              forall m | m in records && m !in left && records[m].instanceId == instanceId && m != k
                ensures LexLess(k, m)
              {
                if m != found.value {
                  LexTransitive(k, found.value, m);
                }
              }
              found := Some(k);
            }
          }
        }
      }
    }

    method SetStatus(instanceId: string, status: AlertStatus, detail: string, observedNs: nat, persists: bool)
      returns (r: Result<AlertRecord, Error>)
      modifies this
      ensures var op := Operate(instanceId, status, detail, observedNs, persists);
              && State(records, disk) == Step(State(old(records), old(disk)), op).0
              && Step(State(old(records), old(disk)), op).1 == match r
                                                               case Ok(record) => Changed(record)
                                                               case Err(e) => Failed(e)
    {
      hide LexLess, IsFirst, Unknown;
      var key := Find(instanceId);
      if key.None? {
        UnknownHasNoFirst(records, instanceId);
        return Err(UnknownInstance);
      }
      FirstIsOne(records, instanceId, key.value);
      var record := records[key.value];
      if record.status == Resolved && status == Acknowledged {
        return Err(ResolvedCannotBeAcknowledged);
      }
      record := Operated(record, status, detail, observedNs);
      records := records[key.value := record];
      var persisted := Persist(persists);
      if !persisted {
        return Err(PersistFailed);
      }
      return Ok(record);
    }
  }

  lemma UnknownHasNoFirst(records: Records, instanceId: string)
    requires Unknown(records, instanceId)
    ensures FirstWith(records, instanceId) == None
  {
  }

  lemma FirstIsOne(records: Records, instanceId: string, key: string)
    requires IsFirst(records, instanceId, key)
    ensures FirstWith(records, instanceId) == Some(key) && key in records
  {
    hide LexLess;
    var other := FirstWith(records, instanceId).value;
    if other != key {
      LexTransitive(key, other, key);
      LexIrreflexive(key);
    }
  }

  // ---- Runs -----------------------------------------------------------------------------------------------------

  datatype State = State(memory: Records, disk: Records)

  datatype Op =
    | Observe(alert: ProcessAlert, persists: bool)
    | Operate(instanceId: string, status: AlertStatus, detail: string, observedNs: nat, persists: bool)
    | Restart

  /** What a call answers: nothing new, a transition to publish, a changed record, or an error. */
  datatype Out = Silent | Emitted(alert: ProcessAlert) | Changed(record: AlertRecord) | Failed(error: Error)

  ghost function FirstWith(records: Records, instanceId: string): Option<string> {
    if k :| IsFirst(records, instanceId, k) then Some(k) else None
  }

  function Put(s: State, key: string, record: AlertRecord, persists: bool): State {
    var memory := s.memory[key := record];
    State(memory, if persists then memory else s.disk)
  }

  ghost function Step(s: State, op: Op): (State, Out) {
    match op
    case Observe(alert, persists) =>
      var key := Key(alert.ruleId, alert.processName);
      var existing := Lookup(s.memory, key);
      (match Next(existing, alert)
       case None => (s, Silent)
       case Some(next) =>
         (Put(s, key, next, persists),
          if persists then Emitted(Emission(existing, next, alert)) else Failed(PersistFailed)))
    case Operate(instanceId, status, detail, observedNs, persists) =>
      (match FirstWith(s.memory, instanceId)
       case None => (s, Failed(UnknownInstance))
       case Some(key) =>
         if s.memory[key].status == Resolved && status == Acknowledged then (s, Failed(ResolvedCannotBeAcknowledged))
         else
           var record := Operated(s.memory[key], status, detail, observedNs);
           (Put(s, key, record, persists), if persists then Changed(record) else Failed(PersistFailed)))
    case Restart => (State(s.disk, s.disk), Silent)
  }

  ghost function After(s: State, ops: seq<Op>): State {
    if ops == [] then s else Step(After(s, ops[..|ops| - 1]), ops[|ops| - 1]).0
  }

  /** The answers of a run about one rule and process, in order. */
  ghost function Reports(s: State, ops: seq<Op>, rule: string, process: string): seq<Out> {
    if ops == [] then [] else
    var n := |ops| - 1;
    var out := Step(After(s, ops[..n]), ops[n]).1;
    Reports(s, ops[..n], rule, process) + if About(out, rule, process) then [out] else []
  }

  predicate About(out: Out, rule: string, process: string) {
    match out
    case Emitted(alert) => alert.ruleId == rule && alert.processName == process
    case Changed(record) => record.ruleId == rule && record.processName == process
    case _ => false
  }

  /** The status a report announces. */
  function Announced(out: Out): string
    requires out.Emitted? || out.Changed?
  {
    if out.Emitted? then out.alert.state else StatusName(out.record.status)
  }

  /** The time a report gives for its change. */
  function ReportedAt(out: Out): nat
    requires out.Emitted? || out.Changed?
  {
    if out.Emitted? then out.alert.observedNs else out.record.lastNs
  }

  const EMPTY := State(map[], map[])

  // ---- Keys and instance ids ------------------------------------------------------------------------------------

  /** Two rules can share a key, for some processes, exactly when one rule id is the other, or starts
      with the other and a colon. */
  lemma KeyClashExactly(r1: string, r2: string)
    ensures (exists p1, p2 :: Key(r1, p1) == Key(r2, p2)) <==> r1 == r2 || r1 + [':'] <= r2 || r2 + [':'] <= r1
  {
    if p1, p2 :| Key(r1, p1) == Key(r2, p2) {
      SharedKey(r1, p1, r2, p2);
    }
    if r1 + [':'] <= r2 {
      var t := r2[|r1| + 1..];
      assert r2 == r1 + [':'] + t;
      assert Key(r1, t + [':']) == Key(r2, []);
    } else if r2 + [':'] <= r1 {
      var t := r1[|r2| + 1..];
      assert r1 == r2 + [':'] + t;
      assert Key(r1, []) == Key(r2, t + [':']);
    } else if r1 == r2 {
      assert Key(r1, []) == Key(r2, []);
    }
  }

  lemma SharedKey(r1: string, p1: string, r2: string, p2: string)
    requires Key(r1, p1) == Key(r2, p2)
    ensures r1 == r2 ==> p1 == p2
    ensures r1 == r2 || r1 + [':'] <= r2 || r2 + [':'] <= r1
  {
    var k := Key(r1, p1);
    assert k[..|r1|] == r1 && k[|r1|] == ':' && k[|r1| + 1..] == p1;
    assert k[..|r2|] == r2 && k[|r2|] == ':' && k[|r2| + 1..] == p2;
    if |r1| < |r2| {
      assert r1 + [':'] == k[..|r1| + 1] == r2[..|r1| + 1];
    } else if |r2| < |r1| {
      assert r2 + [':'] == k[..|r2| + 1] == r1[..|r2| + 1];
    }
  }

  /** No rule id starts with another one and a colon; rule ids without colons are like that. */
  ghost predicate Separate(rules: set<string>) {
    forall r, q | r in rules && q in rules :: !(r + [':'] <= q)
  }

  lemma ColonFreeIsSeparate(rules: set<string>)
    requires forall r | r in rules :: ':' !in r
    ensures Separate(rules)
  {
    forall r, q | r in rules && q in rules
      ensures !(r + [':'] <= q)
    {
      assert (r + [':'])[|r|] == ':' && (|r| < |q| ==> q[|r|] in q);
    }
  }

  /** An instance id names a rule and the time it first fired, and nothing else. */
  lemma InstanceIdExactly(r1: string, t1: nat, r2: string, t2: nat)
    ensures InstanceId(r1, t1) == InstanceId(r2, t2) <==> r1 == r2 && t1 == t2
  {
    hide Decimal;
    if InstanceId(r1, t1) == InstanceId(r2, t2) {
      LastDash(r1, Decimal(t1), r2, Decimal(t2));
      DecimalInjective(t1, t2);
    }
  }

  /** Two processes of one rule that fire at the same time share an instance id: an operator reaches
      only the one with the smaller key. */
  lemma SecondIsUnreachable(a: ProcessAlert, b: ProcessAlert, status: AlertStatus, detail: string, observedNs: nat)
    requires a.ruleId == b.ruleId && a.observedNs == b.observedNs && Desired(a) == Desired(b) == Firing
    requires LexLess(Key(a.ruleId, a.processName), Key(b.ruleId, b.processName))
    ensures var s := After(EMPTY, [Observe(a, true), Observe(b, true)]);
            var ka, kb := Key(a.ruleId, a.processName), Key(b.ruleId, b.processName);
            var id := InstanceId(a.ruleId, a.observedNs);
            var (t, out) := Step(s, Operate(id, status, detail, observedNs, true));
            && ka in s.memory && kb in s.memory && ka != kb && s.memory[kb].instanceId == id
            && kb in t.memory && t.memory[kb] == s.memory[kb] && out.Changed? && t.memory[ka] == out.record
  {
    hide LexLess, InstanceId, Key, Detail;
    var ka, kb := Key(a.ruleId, a.processName), Key(b.ruleId, b.processName);
    LexIrreflexive(ka);
    var ops := [Observe(a, true), Observe(b, true)];
    assert ops[..1] == [Observe(a, true)] && ops[..1][..0] == [];
    var s := After(EMPTY, ops);
    assert After(EMPTY, ops[..1]).memory.Keys == {ka};
    assert IsFirst(s.memory, InstanceId(a.ruleId, a.observedNs), ka);
    FirstIsOne(s.memory, InstanceId(a.ruleId, a.observedNs), ka);
  }

  // ---- The history of one pair ------------------------------------------------------------------------------------

  ghost predicate WellKeyed(rules: set<string>, m: Records) {
    forall k | k in m :: m[k].ruleId in rules && k == Key(m[k].ruleId, m[k].processName)
  }

  predicate Persisted(op: Op) {
    op.Restart? || op.persists
  }

  predicate OfRules(rules: set<string>, op: Op) {
    op.Observe? ==> op.alert.ruleId in rules
  }

  /** The moves a process event may make. */
  predicate LegalMove(previous: Option<string>, state: string) {
    if state == StatusName(Firing) then previous == None || previous == Some(StatusName(Resolved))
    else if state == StatusName(Resolved) then
      previous == Some(StatusName(Firing)) || previous == Some(StatusName(Acknowledged))
    else false
  }

  function Before(reports: seq<Out>, i: nat): Option<string>
    requires i <= |reports| && forall r | r in reports :: r.Emitted? || r.Changed?
  {
    if i == 0 then None else Some(Announced(reports[i - 1]))
  }

  /** Reports of one pair: all carry the id and first time of the first, and every published
      transition moves on from the status announced last. */
  ghost predicate Chained(reports: seq<Out>) {
    && (forall r | r in reports :: r.Emitted? || r.Changed?)
    && (reports != [] ==> reports[0].Emitted?)
    && (forall i :: 0 <= i < |reports| ==> ChainedAt(reports, i))
  }

  ghost predicate ChainedAt(reports: seq<Out>, i: nat)
    requires i < |reports| && reports[0].Emitted? && forall r | r in reports :: r.Emitted? || r.Changed?
  {
    var first := reports[0].alert;
    var id := InstanceId(first.ruleId, first.observedNs);
    match reports[i]
    case Emitted(alert) =>
      alert.instanceId == id && alert.previousState == Before(reports, i) && LegalMove(alert.previousState, alert.state)
    case Changed(record) => record.instanceId == id && record.firstNs == first.observedNs
    case _ => true
  }

  /** The record agrees with what was reported about its pair. */
  ghost predicate Told(r: AlertRecord, reports: seq<Out>)
    requires Chained(reports)
  {
    && reports != []
    && r.instanceId == InstanceId(reports[0].alert.ruleId, reports[0].alert.observedNs)
    && r.firstNs == reports[0].alert.observedNs
    && StatusName(r.status) == Announced(reports[|reports| - 1])
    && r.lastNs == ReportedAt(reports[|reports| - 1])
    && r.transitionCount == (if |reports| <= MAX_U64 then |reports| else MAX_U64)
  }

  ghost predicate PairInv(rules: set<string>, s: State, rule: string, process: string, reports: seq<Out>) {
    var k := Key(rule, process);
    && WellKeyed(rules, s.memory) && s.memory == s.disk && Chained(reports)
    && (k in s.memory <==> reports != [])
    && (k in s.memory ==> s.memory[k].ruleId == rule && s.memory[k].processName == process && Told(s.memory[k], reports))
  }

  lemma ChainedAppend(reports: seq<Out>, out: Out)
    requires Chained(reports) && (out.Emitted? || out.Changed?) && (reports == [] ==> out.Emitted?)
    requires var all := reports + [out]; all[0].Emitted? && ChainedAt(all, |reports|)
    ensures Chained(reports + [out])
  {
    hide InstanceId, LegalMove, Announced;
    var all := reports + [out];
    forall i | 0 <= i < |all|
      ensures ChainedAt(all, i)
    {
      if i < |reports| {
        assert ChainedAt(reports, i);
        assert all[0] == reports[0] && all[i] == reports[i];
        assert Before(all, i) == Before(reports, i);
      }
    }
  }

  lemma MoveIsLegal(existing: Option<AlertRecord>, next: AlertRecord, alert: ProcessAlert)
    requires Next(existing, alert) == Some(next)
    ensures var e := Emission(existing, next, alert); LegalMove(e.previousState, e.state)
    ensures next.ruleId == alert.ruleId && next.processName == alert.processName
  {
    hide Detail, InstanceId, StatusName;
    StatusNamesDiffer(Firing, Resolved);
  }

  /** One step about this pair, from a process event. */
  lemma EmissionIsTold(rules: set<string>, s: State, alert: ProcessAlert, reports: seq<Out>, next: AlertRecord)
    requires PairInv(rules, s, alert.ruleId, alert.processName, reports)
    requires Next(Lookup(s.memory, Key(alert.ruleId, alert.processName)), alert) == Some(next)
    ensures var out := Emitted(Emission(Lookup(s.memory, Key(alert.ruleId, alert.processName)), next, alert));
            Chained(reports + [out]) && Told(next, reports + [out])
  {
    hide Detail, InstanceId, StatusName, Key, LegalMove, WellKeyed, Chained;
    var existing := Lookup(s.memory, Key(alert.ruleId, alert.processName));
    var out := Emitted(Emission(existing, next, alert));
    MoveIsLegal(existing, next, alert);
    ChainedParts(reports);
    var all := reports + [out];
    assert all[0] == if reports == [] then out else reports[0];
    ChainedAppend(reports, out);
  }

  lemma ChainedParts(reports: seq<Out>)
    requires Chained(reports)
    ensures forall r | r in reports :: r.Emitted? || r.Changed?
    ensures reports != [] ==> reports[0].Emitted?
  {
  }

  /** One step about this pair, from an operator. */
  lemma ChangeIsTold(r: AlertRecord, reports: seq<Out>, status: AlertStatus, detail: string, observedNs: nat)
    requires Chained(reports) && Told(r, reports)
    ensures var next := Operated(r, status, detail, observedNs);
            Chained(reports + [Changed(next)]) && Told(next, reports + [Changed(next)])
  {
    hide InstanceId, StatusName, LegalMove, Chained;
    ChainedParts(reports);
    var next := Operated(r, status, detail, observedNs);
    var all := reports + [Changed(next)];
    assert all[0] == reports[0];
    ChainedAppend(reports, Changed(next));
  }

  lemma StepKeepsPair(rules: set<string>, s: State, op: Op, rule: string, process: string, reports: seq<Out>)
    requires Separate(rules) && rule in rules && Persisted(op) && OfRules(rules, op)
    requires PairInv(rules, s, rule, process, reports)
    ensures var (t, out) := Step(s, op);
            PairInv(rules, t, rule, process, reports + if About(out, rule, process) then [out] else [])
  {
    hide Detail, InstanceId, StatusName, Key, Chained, Told, Separate, LexLess, Next, Operated;
    assert reports + [] == reports;
    match op
    case Observe(alert, _) =>
      var key := Key(alert.ruleId, alert.processName);
      var existing := Lookup(s.memory, key);
      SeparateKeys(rules, alert.ruleId, alert.processName, rule, process);
      match Next(existing, alert) {
        case None =>
        case Some(next) =>
          MoveIsLegal(existing, next, alert);
          if key == Key(rule, process) {
            EmissionIsTold(rules, s, alert, reports, next);
          }
      }
    case Operate(instanceId, status, detail, observedNs, _) =>
      match FirstWith(s.memory, instanceId) {
        case None =>
        case Some(key) =>
          var r := s.memory[key];
          OperatedKeeps(r, status, detail, observedNs);
          SeparateKeys(rules, r.ruleId, r.processName, rule, process);
          if key == Key(rule, process) && !(r.status == Resolved && status == Acknowledged) {
            ChangeIsTold(r, reports, status, detail, observedNs);
          }
      }
    case Restart =>
  }

  lemma OperatedKeeps(r: AlertRecord, status: AlertStatus, detail: string, observedNs: nat)
    ensures var n := Operated(r, status, detail, observedNs); n.ruleId == r.ruleId && n.processName == r.processName
  {
  }

  lemma SeparateKeys(rules: set<string>, r1: string, p1: string, r2: string, p2: string)
    requires Separate(rules) && r1 in rules && r2 in rules
    ensures Key(r1, p1) == Key(r2, p2) <==> r1 == r2 && p1 == p2
  {
    hide Key;
    if Key(r1, p1) == Key(r2, p2) {
      SharedKey(r1, p1, r2, p2);
    }
  }

  ghost predicate GoodRun(rules: set<string>, ops: seq<Op>) {
    Separate(rules) && forall op | op in ops :: Persisted(op) && OfRules(rules, op)
  }

  /** In every run of process events, operator actions and restarts whose persists succeed, a pair
      keeps its instance id and first time, each published transition starts from the status
      reported last, and the counter is the number of reports. */
  lemma {:induction false} PairHistory(rules: set<string>, ops: seq<Op>, rule: string, process: string)
    requires GoodRun(rules, ops) && rule in rules
    ensures PairInv(rules, After(EMPTY, ops), rule, process, Reports(EMPTY, ops, rule, process))
  {
    hide Step, Separate, Key;
    if ops != [] {
      var n := |ops| - 1;
      assert ops[n] in ops;
      PairHistory(rules, ops[..n], rule, process);
      hide PairInv;
      StepKeepsPair(rules, After(EMPTY, ops[..n]), ops[n], rule, process, Reports(EMPTY, ops[..n], rule, process));
    }
  }

  /** Without operator actions the published transitions of a pair strictly alternate. */
  lemma Alternation(rules: set<string>, ops: seq<Op>, rule: string, process: string, i: nat)
    requires GoodRun(rules, ops) && rule in rules && forall op | op in ops :: !op.Operate?
    requires i < |Reports(EMPTY, ops, rule, process)|
    ensures var out := Reports(EMPTY, ops, rule, process)[i];
            out.Emitted? && out.alert.state == StatusName(if i % 2 == 0 then Firing else Resolved)
  {
    PairHistory(rules, ops, rule, process);
    OnlyEmissions(EMPTY, ops, rule, process);
    Alternate(Reports(EMPTY, ops, rule, process), i);
  }

  lemma {:induction false} OnlyEmissions(s: State, ops: seq<Op>, rule: string, process: string)
    requires forall op | op in ops :: !op.Operate?
    ensures forall r | r in Reports(s, ops, rule, process) :: r.Emitted?
  {
    hide Next, Emission;
    if ops != [] {
      assert ops[|ops| - 1] in ops;
      OnlyEmissions(s, ops[..|ops| - 1], rule, process);
    }
  }

  lemma {:induction false} Alternate(reports: seq<Out>, i: nat)
    requires Chained(reports) && (forall r | r in reports :: r.Emitted?) && i < |reports|
    ensures reports[i].alert.state == StatusName(if i % 2 == 0 then Firing else Resolved)
  {
    hide InstanceId, StatusName;
    assert ChainedAt(reports, i);
    if i > 0 {
      Alternate(reports, i - 1);
      assert reports[i - 1] in reports && reports[i] in reports;
      StatusNamesDiffer(Firing, Resolved);
      StatusNamesDiffer(Firing, Acknowledged);
      StatusNamesDiffer(Resolved, Acknowledged);
    }
  }

  /** Process events and restarts never move a suppressed pair, nor an acknowledged one whose process
      does not exit; here persists may fail. */
  lemma {:induction false} OperatorHasTheLastWord(s: State, ops: seq<Op>, key: string, r: AlertRecord)
    requires Lookup(s.memory, key) == Some(r) == Lookup(s.disk, key)
    requires forall op | op in ops :: !op.Operate?
    requires || r.status == Suppressed
             || (r.status == Acknowledged && forall op | op in ops && op.Observe? ::
                   Key(op.alert.ruleId, op.alert.processName) == key ==> Desired(op.alert) == Firing)
    ensures Lookup(After(s, ops).memory, key) == Some(r) == Lookup(After(s, ops).disk, key)
  {
    hide Key, Detail, InstanceId, StatusName, Desired;
    if ops != [] {
      assert ops[|ops| - 1] in ops;
      OperatorHasTheLastWord(s, ops[..|ops| - 1], key, r);
    }
  }

  // ---- What a process event does ------------------------------------------------------------------------------------

  /** Whether an event moves a pair on: an exit ends what fires or is acknowledged, any other event starts
      what is new or resolved, and nothing moves what is suppressed. */
  predicate MovesOn(status: Option<AlertStatus>, exit: bool) {
    match status
    case None => !exit
    case Some(Firing) => exit
    case Some(Acknowledged) => exit
    case Some(Resolved) => !exit
    case Some(Suppressed) => false
  }

  /** The whole effect of a process event: the record, the file, and the transition that is published. */
  lemma ObserveExactly(s: State, alert: ProcessAlert, persists: bool)
    ensures var k, exit := alert.ruleId + ":" + alert.processName, alert.eventType == "EXIT";
            var (t, out) := Step(s, Observe(alert, persists));
            var known := k in s.memory;
            if !MovesOn(if known then Some(s.memory[k].status) else None, exit) then t == s && out == Silent
            else
              && k in t.memory && t.memory == s.memory[k := t.memory[k]]
              && (var r := t.memory[k];
                  && r.ruleId == alert.ruleId && r.processName == alert.processName
                  && r.status == (if exit then Resolved else Firing)
                  && r.lastNs == alert.observedNs
                  && r.detail == alert.eventType + " pid=" + Signed(alert.pid) + " ppid=" + Signed(alert.ppid)
                  && (known ==>
                        && r.instanceId == s.memory[k].instanceId && r.firstNs == s.memory[k].firstNs
                        && r.transitionCount == (if s.memory[k].transitionCount < MAX_U64 then s.memory[k].transitionCount + 1
                                                 else MAX_U64))
                  && (!known ==>
                        && r.instanceId == alert.ruleId + "-" + Decimal(alert.observedNs)
                        && r.firstNs == alert.observedNs && r.transitionCount == 1)
                  && (persists ==>
                        out == Emitted(alert.(
                          instanceId := r.instanceId,
                          state := if exit then "resolved" else "firing",
                          previousState :=
                            if !known then None
                            else if s.memory[k].status == Firing then Some("firing")
                            else if s.memory[k].status == Resolved then Some("resolved")
                            else Some("acknowledged")))))
              && t.disk == (if persists then t.memory else s.disk)
              && (!persists ==> out == Failed(PersistFailed))
  {
    hide Decimal, Signed;
    assert Key(alert.ruleId, alert.processName) == alert.ruleId + ":" + alert.processName;
    assert InstanceId(alert.ruleId, alert.observedNs) == alert.ruleId + "-" + Decimal(alert.observedNs);
  }

  /** The whole effect of an operator's action: the first record with that id gets the status, the text
      and the time, unless it is resolved and the status is acknowledged. */
  lemma OperateExactly(s: State, instanceId: string, status: AlertStatus, detail: string, observedNs: nat, persists: bool)
    ensures var (t, out) := Step(s, Operate(instanceId, status, detail, observedNs, persists));
            && ((forall k | k in s.memory :: s.memory[k].instanceId != instanceId) ==>
                  t == s && out == Failed(UnknownInstance))
            && forall k | IsFirst(s.memory, instanceId, k) ::
                 var r := s.memory[k];
                 if r.status == Resolved && status == Acknowledged then
                   t == s && out == Failed(ResolvedCannotBeAcknowledged)
                 else
                   var changed := AlertRecord(
                     r.instanceId, r.ruleId, r.processName, status, r.firstNs, observedNs,
                     if r.transitionCount < MAX_U64 then r.transitionCount + 1 else MAX_U64, detail);
                   && t.memory == s.memory[k := changed] && t.disk == (if persists then t.memory else s.disk)
                   && out == (if persists then Changed(changed) else Failed(PersistFailed))
  {
    hide LexLess;
    forall k | IsFirst(s.memory, instanceId, k)
      ensures FirstWith(s.memory, instanceId) == Some(k)
    {
      FirstIsOne(s.memory, instanceId, k);
    }
  }

  /** What a call changed without persisting it is gone after a restart, and nothing else. */
  lemma UnpersistedIsForgotten(s: State, op: Op)
    requires !op.Restart? && !op.persists
    ensures var t := Step(s, op).0;
            t.disk == s.disk && Step(t, Restart) == (State(s.disk, s.disk), Silent)
  {
    hide Next, FirstWith;
  }

  // ---- Persists that fail ------------------------------------------------------------------------------------------

  ghost function StatusOf(m: Records, key: string): Option<string> {
    if key in m then Some(StatusName(m[key].status)) else None
  }

  /** The status the latest report announced. */
  function LastAnnounced(reports: seq<Out>): Option<string> {
    if reports == [] then None else
    match reports[|reports| - 1]
    case Emitted(alert) => Some(alert.state)
    case Changed(record) => Some(StatusName(record.status))
    case _ => None
  }

  /** The call changes the status of the pair and fails to persist it. */
  ghost predicate LosesReport(s: State, op: Op, rule: string, process: string) {
    var k := Key(rule, process);
    match op
    case Observe(alert, persists) =>
      !persists && alert.ruleId == rule && alert.processName == process && Next(Lookup(s.memory, k), alert).Some?
    case Operate(instanceId, status, _, _, persists) =>
      && !persists && FirstWith(s.memory, instanceId) == Some(k) && k in s.memory
      && s.memory[k].status != status && !(s.memory[k].status == Resolved && status == Acknowledged)
    case Restart => false
  }

  ghost predicate AnyRun(rules: set<string>, ops: seq<Op>) {
    Separate(rules) && forall op | op in ops :: OfRules(rules, op)
  }

  lemma StepKeepsKeys(rules: set<string>, s: State, op: Op)
    requires OfRules(rules, op) && WellKeyed(rules, s.memory) && WellKeyed(rules, s.disk)
    ensures WellKeyed(rules, Step(s, op).0.memory) && WellKeyed(rules, Step(s, op).0.disk)
  {
    hide Detail, InstanceId, StatusName, Key, Desired, LexLess;
  }

  lemma {:induction false} RunKeepsKeys(rules: set<string>, ops: seq<Op>)
    requires AnyRun(rules, ops)
    ensures WellKeyed(rules, After(EMPTY, ops).memory) && WellKeyed(rules, After(EMPTY, ops).disk)
  {
    hide Step, WellKeyed, Separate;
    if ops == [] {
      NoKeys(rules);
    } else {
      assert ops[|ops| - 1] in ops;
      RunKeepsKeys(rules, ops[..|ops| - 1]);
      StepKeepsKeys(rules, After(EMPTY, ops[..|ops| - 1]), ops[|ops| - 1]);
    }
  }

  lemma NoKeys(rules: set<string>)
    ensures WellKeyed(rules, map[])
  {
  }

  /** The records in memory, and those in the file, agree with what was reported about the pair. */
  ghost predicate InSync(m: Records, rule: string, process: string, reports: seq<Out>) {
    StatusOf(m, Key(rule, process)) == LastAnnounced(reports)
  }

  function Reported(out: Out, rule: string, process: string): seq<Out> {
    if About(out, rule, process) then [out] else []
  }

  /** From a state in which memory and file both agree with the reports, a call leaves the memory in
      disagreement exactly when it loses a report; otherwise both still agree. */
  lemma StepSync(rules: set<string>, s: State, op: Op, rule: string, process: string, reports: seq<Out>)
    requires Separate(rules) && rule in rules && OfRules(rules, op)
    requires WellKeyed(rules, s.memory)
    requires InSync(s.memory, rule, process, reports) && InSync(s.disk, rule, process, reports)
    ensures var (t, out) := Step(s, op);
            var reports' := reports + Reported(out, rule, process);
            && (InSync(t.memory, rule, process, reports') <==> !LosesReport(s, op, rule, process))
            && (!LosesReport(s, op, rule, process) ==> InSync(t.disk, rule, process, reports'))
  {
    hide Detail, InstanceId, StatusName, Key, Separate, LexLess, Next;
    assert reports + [] == reports;
    match op
    case Observe(alert, _) =>
      var existing := Lookup(s.memory, Key(alert.ruleId, alert.processName));
      SeparateKeys(rules, alert.ruleId, alert.processName, rule, process);
      match Next(existing, alert) {
        case None =>
        case Some(next) => MoveChanges(existing, next, alert);
      }
    case Operate(instanceId, status, _, _, _) =>
      match FirstWith(s.memory, instanceId) {
        case None =>
        case Some(key) =>
          var r := s.memory[key];
          SeparateKeys(rules, r.ruleId, r.processName, rule, process);
          StatusNamesDiffer(r.status, status);
      }
    case Restart =>
  }

  lemma MoveChanges(existing: Option<AlertRecord>, next: AlertRecord, alert: ProcessAlert)
    requires Next(existing, alert) == Some(next)
    ensures next.ruleId == alert.ruleId && next.processName == alert.processName
    ensures existing.Some? ==> StatusName(next.status) != StatusName(existing.value.status)
  {
    hide Detail, InstanceId, StatusName;
    if existing.Some? {
      StatusNamesDiffer(next.status, existing.value.status);
    }
  }

  ghost predicate SyncAfter(ops: seq<Op>, rule: string, process: string) {
    InSync(After(EMPTY, ops).memory, rule, process, Reports(EMPTY, ops, rule, process))
  }

  ghost predicate LostIn(ops: seq<Op>, n: nat, rule: string, process: string)
    requires n < |ops|
  {
    LosesReport(After(EMPTY, ops[..n]), ops[n], rule, process)
  }

  lemma {:induction false} UnlostIsSync(rules: set<string>, ops: seq<Op>, rule: string, process: string)
    requires AnyRun(rules, ops) && rule in rules
    requires forall n | 0 <= n < |ops| :: !LostIn(ops, n, rule, process)
    ensures SyncAfter(ops, rule, process)
    ensures InSync(After(EMPTY, ops).disk, rule, process, Reports(EMPTY, ops, rule, process))
  {
    hide Step, InSync, Key, LosesReport, Separate, WellKeyed, OfRules;
    if ops == [] {
      StartsInSync(rule, process);
    } else {
      var m := |ops| - 1;
      var front := ops[..m];
      assert ops[m] in ops;
      forall n | 0 <= n < |front|
        ensures !LostIn(front, n, rule, process)
      {
        assert front[..n] == ops[..n];
        assert !LostIn(ops, n, rule, process);
      }
      UnlostIsSync(rules, front, rule, process);
      RunKeepsKeys(rules, front);
      assert !LostIn(ops, m, rule, process);
      StepSync(rules, After(EMPTY, front), ops[m], rule, process, Reports(EMPTY, front, rule, process));
    }
  }

  lemma StartsInSync(rule: string, process: string)
    ensures InSync(map[], rule, process, [])
  {
  }

  /** In every run, with persists that fail and restarts at any point: the record of a pair has the
      status last reported throughout, if and only if no call lost a report. */
  lemma SyncExactly(rules: set<string>, ops: seq<Op>, rule: string, process: string)
    requires AnyRun(rules, ops) && rule in rules
    ensures (forall n | 0 <= n <= |ops| :: SyncAfter(ops[..n], rule, process))
            <==> (forall n | 0 <= n < |ops| :: !LostIn(ops, n, rule, process))
  {
    hide SyncAfter, LostIn, AnyRun;
    if forall n | 0 <= n < |ops| :: !LostIn(ops, n, rule, process) {
      forall n | 0 <= n <= |ops|
        ensures SyncAfter(ops[..n], rule, process)
      {
        UnlostPrefix(rules, ops, n, rule, process);
      }
    } else {
      var n := FirstLoss(ops, rule, process);
      LossBreaksSync(rules, ops, n, rule, process);
    }
  }

  lemma {:induction false} FirstLoss(ops: seq<Op>, rule: string, process: string) returns (n: nat)
    requires exists n | 0 <= n < |ops| :: LostIn(ops, n, rule, process)
    ensures n < |ops| && LostIn(ops, n, rule, process)
    ensures forall m | 0 <= m < n :: !LostIn(ops, m, rule, process)
  {
    hide LostIn;
    n := 0;
    while !LostIn(ops, n, rule, process)
      invariant n < |ops| && forall m | 0 <= m < n :: !LostIn(ops, m, rule, process)
      decreases |ops| - n
    {
      n := n + 1;
    }
  }

  lemma PrefixLosses(ops: seq<Op>, n: nat, rule: string, process: string)
    requires n <= |ops| && forall m | 0 <= m < n :: !LostIn(ops, m, rule, process)
    ensures forall m | 0 <= m < n :: !LostIn(ops[..n], m, rule, process)
  {
    hide LosesReport, After;
    forall m | 0 <= m < n
      ensures !LostIn(ops[..n], m, rule, process)
    {
      assert ops[..n][..m] == ops[..m];
      assert !LostIn(ops, m, rule, process);
    }
  }

  lemma UnlostPrefix(rules: set<string>, ops: seq<Op>, n: nat, rule: string, process: string)
    requires AnyRun(rules, ops) && rule in rules && n <= |ops|
    requires forall m | 0 <= m < n :: !LostIn(ops, m, rule, process)
    ensures AnyRun(rules, ops[..n]) && SyncAfter(ops[..n], rule, process)
    ensures InSync(After(EMPTY, ops[..n]).disk, rule, process, Reports(EMPTY, ops[..n], rule, process))
  {
    hide LostIn, SyncAfter, InSync, Separate, OfRules;
    PrefixLosses(ops, n, rule, process);
    UnlostIsSync(rules, ops[..n], rule, process);
  }

  lemma LossBreaksSync(rules: set<string>, ops: seq<Op>, n: nat, rule: string, process: string)
    requires AnyRun(rules, ops) && rule in rules && n < |ops| && LostIn(ops, n, rule, process)
    requires forall m | 0 <= m < n :: !LostIn(ops, m, rule, process)
    ensures !SyncAfter(ops[..n + 1], rule, process)
  {
    UnlostPrefix(rules, ops, n, rule, process);
    hide Step, InSync, Key, LosesReport, Separate, WellKeyed, OfRules;
    RunKeepsKeys(rules, ops[..n]);
    assert ops[n] in ops;
    StepSync(rules, After(EMPTY, ops[..n]), ops[n], rule, process, Reports(EMPTY, ops[..n], rule, process));
    assert ops[..n + 1][..n] == ops[..n];
  }

  /** A published transition names the status reported last exactly when the record has it. */
  lemma PreviousExactly(ops: seq<Op>, alert: ProcessAlert)
    requires Step(After(EMPTY, ops), Observe(alert, true)).1.Emitted?
    ensures Step(After(EMPTY, ops), Observe(alert, true)).1.alert.previousState
            == LastAnnounced(Reports(EMPTY, ops, alert.ruleId, alert.processName))
            <==> SyncAfter(ops, alert.ruleId, alert.processName)
  {
    hide Detail, InstanceId, StatusName, Key, Desired, After, Reports, LastAnnounced;
  }

  /** A persist that fails loses its transition: the next one published names a status that no report
      has announced. */
  lemma FailedPersistLosesReport(a: ProcessAlert, b: ProcessAlert)
    requires a.ruleId == b.ruleId && a.processName == b.processName && Desired(a) == Firing && Desired(b) == Resolved
    ensures var ops := [Observe(a, false), Observe(b, true)];
            var reports := Reports(EMPTY, ops, a.ruleId, a.processName);
            |reports| == 1 && reports[0].Emitted? && reports[0].alert.previousState == Some(StatusName(Firing))
  {
    hide Key, Detail, InstanceId, StatusName;
    var ops := [Observe(a, false), Observe(b, true)];
    assert ops[..1] == [Observe(a, false)] && ops[..1][..0] == [];
    assert Reports(EMPTY, ops[..1], a.ruleId, a.processName) == [];
  }
}
