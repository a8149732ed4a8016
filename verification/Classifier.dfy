/** Kernel events and the death classifier (src/forensics/events.rs, src/forensics/classifier.rs).

    The classifier is a pure function of an event slice.  The lemmas here say which events it can
    be influenced by, and what a confirmed verdict is worth. */
module Classifier {
  import opened Prelude

  datatype ProcessIdentity = ProcessIdentity(tgid: nat, startBoottimeNs: nat)

  datatype OomKind = Global | Memcg | UnknownKind

  datatype KernelEvent =
    | ProcessExit(timestampNs: nat, identity: ProcessIdentity, pid: nat, ppid: nat, cgroupId: nat,
                  exitCode: int, isGroupLeader: bool)
    | SignalGenerated(timestampNs: nat, target: ProcessIdentity, signal: int, siCode: int, senderPid: nat,
                      senderUid: nat, senderIsKernel: bool, cgroupId: nat)
    | OomVictim(timestampNs: nat, victim: ProcessIdentity, cgroupId: nat, kind: OomKind)
    | TelemetryLoss(timestampNs: nat, droppedRecords: nat)

  datatype ExitDisposition = Exited(status: nat) | Signalled(signal: nat, coreDumped: bool)

  datatype Confidence = UnknownConfidence | Low | Medium | High | Confirmed

  datatype SignalOrigin = Kernel | Process(pid: nat, uid: nat) | UnknownOrigin

  datatype Cause =
    | NormalExit(status: nat)
    | FatalSignal(signal: nat, origin: SignalOrigin)
    | GlobalOom
    | CgroupOom(cgroupId: nat)
    | UnknownCause

  datatype Evidence =
    | ExitEvidence(disposition: ExitDisposition)
    | SignalEvidence(signal: int, origin: SignalOrigin, siCode: int)
    | OomEvidence(kind: OomKind, cgroupId: nat)
    | LossEvidence(droppedRecords: nat)

  datatype DeathReport = DeathReport(
    identity: ProcessIdentity, timestampNs: nat, cgroupId: nat, disposition: ExitDisposition, cause: Cause,
    confidence: Confidence, evidence: seq<Evidence>, evidenceIncomplete: bool)

  /** Older records are context, not causal proof of a later exit. */
  const MAX_CAUSAL_DISTANCE_NS := 5_000_000_000

  const SIGKILL := 9

  /** The process an event is about; a loss record is about none. */
  function Subject(e: KernelEvent): Option<ProcessIdentity> {
    match e
    case ProcessExit(_, identity, _, _, _, _, _) => Some(identity)
    case SignalGenerated(_, target, _, _, _, _, _, _) => Some(target)
    case OomVictim(_, victim, _, _) => Some(victim)
    case TelemetryLoss(_, _) => None
  }

  predicate IsLeaderExit(e: KernelEvent) {
    e.ProcessExit? && e.isGroupLeader
  }

  /** Decodes a wait status held in an i32, as the bit masks on its u32 image do. */
  function Disposition(exitCode: int): ExitDisposition {
    var raw := exitCode % 0x1_0000_0000;
    if raw % 0x80 == 0 then Exited(raw / 0x100 % 0x100) else Signalled(raw % 0x80, raw / 0x80 % 2 == 1)
  }

  function Origin(senderPid: nat, senderUid: nat, senderIsKernel: bool): SignalOrigin {
    if senderIsKernel then Kernel else if senderPid != 0 then Process(senderPid, senderUid) else UnknownOrigin
  }

  function Rank(c: Confidence): nat {
    match c
    case UnknownConfidence => 0
    case Low => 1
    case Medium => 2
    case High => 3
    case Confirmed => 4
  }

  /** The most recent event of the slice that satisfies `p`. */
  function FindLast(events: seq<KernelEvent>, p: KernelEvent -> bool): (r: Option<KernelEvent>)
    ensures r.Some? <==> exists e | e in events :: p(e)
    ensures r.Some? ==> r.value in events && p(r.value)
  {
    if events == [] then None
    else if p(events[|events| - 1]) then Some(events[|events| - 1])
    else FindLast(events[..|events| - 1], p)
  }

  predicate Near(ts: nat, deathNs: nat) {
    ts <= deathNs && deathNs - ts <= MAX_CAUSAL_DISTANCE_NS
  }

  predicate IsDeathOf(id: ProcessIdentity, e: KernelEvent) {
    IsLeaderExit(e) && e.identity == id
  }

  predicate IsSignalCausing(id: ProcessIdentity, signal: int, deathNs: nat, e: KernelEvent) {
    e.SignalGenerated? && e.target == id && e.signal == signal && Near(e.timestampNs, deathNs)
  }

  predicate IsOomCausing(id: ProcessIdentity, deathNs: nat, e: KernelEvent) {
    e.OomVictim? && e.victim == id && Near(e.timestampNs, deathNs)
  }

  function LastDeath(id: ProcessIdentity, events: seq<KernelEvent>): (r: Option<KernelEvent>)
    ensures r.Some? ==> IsDeathOf(id, r.value)
  {
    FindLast(events, e => IsDeathOf(id, e))
  }

  function LastOom(id: ProcessIdentity, deathNs: nat, events: seq<KernelEvent>): (r: Option<KernelEvent>)
    ensures r.Some? ==> IsOomCausing(id, deathNs, r.value)
  {
    FindLast(events, e => IsOomCausing(id, deathNs, e))
  }

  function LastSignal(id: ProcessIdentity, d: ExitDisposition, deathNs: nat, events: seq<KernelEvent>)
      : (r: Option<KernelEvent>)
    ensures r.Some? ==> d.Signalled? && IsSignalCausing(id, d.signal, deathNs, r.value)
  {
    match d
    case Exited(_) => None
    case Signalled(signal, _) => FindLast(events, e => IsSignalCausing(id, signal, deathNs, e))
  }

  function Verdict(d: ExitDisposition, cgroupId: nat, signal: Option<KernelEvent>, oom: Option<KernelEvent>)
      : (Cause, Confidence)
    requires signal.Some? ==> signal.value.SignalGenerated?
    requires oom.Some? ==> oom.value.OomVictim?
  {
    match d
    case Exited(status) => (NormalExit(status), Confirmed)
    case Signalled(number, _) =>
      if number == SIGKILL && oom.Some? && oom.value.kind == Memcg && oom.value.cgroupId == cgroupId then
        (CgroupOom(cgroupId), Confirmed)
      else if number == SIGKILL && oom.Some? && oom.value.kind == Global then
        (GlobalOom, High)
      else if number == SIGKILL && oom.Some? && oom.value.kind == UnknownKind then
        (UnknownCause, Medium)
      else
        var origin :=
          if signal.Some? then Origin(signal.value.senderPid, signal.value.senderUid, signal.value.senderIsKernel)
          else UnknownOrigin;
        (FatalSignal(number, origin), if origin == UnknownOrigin then Medium else High)
  }

  function Trail(d: ExitDisposition, signal: Option<KernelEvent>, oom: Option<KernelEvent>, incomplete: bool)
      : seq<Evidence>
    requires signal.Some? ==> signal.value.SignalGenerated?
    requires oom.Some? ==> oom.value.OomVictim?
  {
    [ExitEvidence(d)]
    + (if signal.Some? then
         [SignalEvidence(signal.value.signal,
                         Origin(signal.value.senderPid, signal.value.senderUid, signal.value.senderIsKernel),
                         signal.value.siCode)]
       else [])
    + (if oom.Some? then [OomEvidence(oom.value.kind, oom.value.cgroupId)] else [])
    + (if incomplete then [LossEvidence(0)] else [])
  }

  function Classify(id: ProcessIdentity, events: seq<KernelEvent>, incomplete: bool): (r: Option<DeathReport>)
    ensures r.Some? <==> exists e | e in events :: IsDeathOf(id, e)
  {
    var death := LastDeath(id, events);
    if death.None? then None else
    var d := Disposition(death.value.exitCode);
    var signal := LastSignal(id, d, death.value.timestampNs, events);
    var oom := LastOom(id, death.value.timestampNs, events);
    var verdict := Verdict(d, death.value.cgroupId, signal, oom);
    Some(DeathReport(
      id, death.value.timestampNs, death.value.cgroupId, d, verdict.0,
      if incomplete && Rank(verdict.1) > Rank(Medium) then Medium else verdict.1,
      Trail(d, signal, oom, incomplete), incomplete))
  }

  // ---- Independence from other processes --------------------------------------------------------

  /** An exit of `id`, a signal sent to it, or an out-of-memory record naming it. */
  predicate IsAbout(id: ProcessIdentity, e: KernelEvent) {
    || (e.ProcessExit? && e.identity == id)
    || (e.SignalGenerated? && e.target == id)
    || (e.OomVictim? && e.victim == id)
  }

  /** The events of one process, in order. */
  function OwnEvents(events: seq<KernelEvent>, id: ProcessIdentity): seq<KernelEvent> {
    if events == [] then [] else
    var last := events[|events| - 1];
    OwnEvents(events[..|events| - 1], id) + if IsAbout(id, last) then [last] else []
  }

  lemma {:induction false} FindLastOwn(events: seq<KernelEvent>, id: ProcessIdentity, p: KernelEvent -> bool)
    requires forall e :: p(e) ==> IsAbout(id, e)
    ensures FindLast(OwnEvents(events, id), p) == FindLast(events, p)
  {
    if events != [] {
      var front, last := events[..|events| - 1], events[|events| - 1];
      FindLastOwn(front, id, p);
      if IsAbout(id, last) {
        assert (OwnEvents(front, id) + [last])[..|OwnEvents(front, id)|] == OwnEvents(front, id);
      } else {
        assert OwnEvents(front, id) + [] == OwnEvents(front, id);
      }
    }
  }

  /** The verdict on a process depends only on that process's own events, in their order. */
  lemma ClassifyOwn(id: ProcessIdentity, events: seq<KernelEvent>, incomplete: bool)
    ensures Classify(id, OwnEvents(events, id), incomplete) == Classify(id, events, incomplete)
  {
    hide Disposition, FindLast, Verdict, Trail;
    FindLastOwn(events, id, e => IsDeathOf(id, e));
    var death := LastDeath(id, events);
    if death.Some? {
      var d, ts := Disposition(death.value.exitCode), death.value.timestampNs;
      FindLastOwn(events, id, e => IsOomCausing(id, ts, e));
      if d.Signalled? {
        FindLastOwn(events, id, e => IsSignalCausing(id, d.signal, ts, e));
      }
    }
  }

  // ---- What a verdict is worth ---------------------------------------------------------------------

  /** `e` is the last out-of-memory record that counts for this death. */
  ghost predicate IsLastOom(id: ProcessIdentity, deathNs: nat, events: seq<KernelEvent>, i: nat) {
    && i < |events| && IsOomCausing(id, deathNs, events[i])
    && forall j | i < j < |events| :: !IsOomCausing(id, deathNs, events[j])
  }

  lemma {:induction false} LastOomIndex(id: ProcessIdentity, deathNs: nat, events: seq<KernelEvent>) returns (i: nat)
    requires LastOom(id, deathNs, events).Some?
    ensures IsLastOom(id, deathNs, events, i) && LastOom(id, deathNs, events) == Some(events[i])
  {
    var n := |events| - 1;
    if IsOomCausing(id, deathNs, events[n]) {
      i := n;
    } else {
      assert LastOom(id, deathNs, events[..n]) == LastOom(id, deathNs, events);
      i := LastOomIndex(id, deathNs, events[..n]);
    }
  }

  /** A cgroup out-of-memory verdict is given exactly when the process died of SIGKILL and its last
      out-of-memory record, at most five seconds old, names its own memory cgroup. */
  lemma CgroupOomExactly(id: ProcessIdentity, events: seq<KernelEvent>, incomplete: bool)
    requires Classify(id, events, incomplete).Some?
    ensures var r := Classify(id, events, incomplete).value;
            r.cause.CgroupOom? <==>
              r.disposition.Signalled? && r.disposition.signal == SIGKILL
              && exists i: nat :: IsLastOom(id, r.timestampNs, events, i)
                             && events[i].kind == Memcg && events[i].cgroupId == r.cgroupId
  {
    var r := Classify(id, events, incomplete).value;
    var oom := LastOom(id, r.timestampNs, events);
    forall k: nat | IsLastOom(id, r.timestampNs, events, k)
      ensures oom == Some(events[k])
    {
      assert events[k] in events;
      var i := LastOomIndex(id, r.timestampNs, events);
    }
    if oom.Some? {
      var i := LastOomIndex(id, r.timestampNs, events);
    }
  }

  /** Lost telemetry never lets a verdict be better than medium, is always on the trail, and is
      never claimed when nothing was lost. */
  lemma LossCapsConfidence(id: ProcessIdentity, events: seq<KernelEvent>, incomplete: bool)
    requires Classify(id, events, incomplete).Some?
    ensures var r := Classify(id, events, incomplete).value;
            (incomplete ==> Rank(r.confidence) <= Rank(Medium)) && (incomplete <==> LossEvidence(0) in r.evidence)
  {
    var r := Classify(id, events, incomplete).value;
    if incomplete {
      assert r.evidence[|r.evidence| - 1] == LossEvidence(0);
    }
  }

  // ---- Every verdict ---------------------------------------------------------------------------------------

  /** `events[i]` is the last of the events that satisfy `p`. */
  ghost predicate IsLast(events: seq<KernelEvent>, p: KernelEvent -> bool, i: nat) {
    i < |events| && p(events[i]) && forall j | i < j < |events| :: !p(events[j])
  }

  /** The search finds the last of the events that satisfy `p`, or says that there is none. */
  lemma {:induction false} FindLastAt(events: seq<KernelEvent>, p: KernelEvent -> bool) returns (i: Option<nat>)
    ensures i.Some? ==> IsLast(events, p, i.value) && FindLast(events, p) == Some(events[i.value])
    ensures i.None? ==> FindLast(events, p) == None && forall e | e in events :: !p(e)
  {
    if events == [] {
      i := None;
    } else {
      var n := |events| - 1;
      if p(events[n]) {
        i := Some(n);
      } else {
        i := FindLastAt(events[..n], p);
        assert events == events[..n] + [events[n]];
      }
    }
  }

  /** The exit event of the group leader of `id`. */
  predicate Dies(id: ProcessIdentity, e: KernelEvent) {
    e.ProcessExit? && e.identity == id && e.isGroupLeader
  }

  /** A signal of that number sent to `id`, at most five seconds before the death. */
  predicate Hit(id: ProcessIdentity, signal: int, deathNs: nat, e: KernelEvent) {
    e.SignalGenerated? && e.target == id && e.signal == signal && e.timestampNs <= deathNs <= e.timestampNs + 5_000_000_000
  }

  /** An out-of-memory record of `id`, at most five seconds before the death. */
  predicate Starved(id: ProcessIdentity, deathNs: nat, e: KernelEvent) {
    e.OomVictim? && e.victim == id && e.timestampNs <= deathNs <= e.timestampNs + 5_000_000_000
  }

  /** The death, signal and out-of-memory records a verdict rests on, by their positions. */
  ghost predicate Basis(
    id: ProcessIdentity, events: seq<KernelEvent>, r: DeathReport, death: nat, signal: Option<nat>, oom: Option<nat>)
  {
    && IsLast(events, e => Dies(id, e), death)
    && r.identity == id && r.timestampNs == events[death].timestampNs && r.cgroupId == events[death].cgroupId
    && (r.disposition.Exited? ==> signal.None?)
    && (r.disposition.Signalled? ==>
          var hit := e => Hit(id, r.disposition.signal, r.timestampNs, e);
          if signal.Some? then IsLast(events, hit, signal.value) else forall e | e in events :: !hit(e))
    && (var starved := e => Starved(id, r.timestampNs, e);
        if oom.Some? then IsLast(events, starved, oom.value) else forall e | e in events :: !starved(e))
  }

  /** Who sent a signal. */
  predicate SentBy(e: KernelEvent, o: SignalOrigin)
    requires e.SignalGenerated?
  {
    match o
    case Kernel => e.senderIsKernel
    case Process(pid, uid) => !e.senderIsKernel && e.senderPid == pid != 0 && e.senderUid == uid
    case UnknownOrigin => !e.senderIsKernel && e.senderPid == 0
  }

  lemma OriginExactly(e: KernelEvent, o: SignalOrigin)
    requires e.SignalGenerated?
    ensures Origin(e.senderPid, e.senderUid, e.senderIsKernel) == o <==> SentBy(e, o)
  {
  }

  /** A report exists exactly when the group leader's exit is on record, and it always has a basis. */
  lemma BasisOf(id: ProcessIdentity, events: seq<KernelEvent>, incomplete: bool)
      returns (death: nat, signal: Option<nat>, oom: Option<nat>)
    requires exists e | e in events :: Dies(id, e)
    ensures Classify(id, events, incomplete).Some?
    ensures Basis(id, events, Classify(id, events, incomplete).value, death, signal, oom)
    ensures var r := Classify(id, events, incomplete).value;
            && events[death].ProcessExit? && r.disposition == Disposition(events[death].exitCode)
            && LastOom(id, r.timestampNs, events) == (if oom.Some? then Some(events[oom.value]) else None)
            && LastSignal(id, r.disposition, r.timestampNs, events)
               == (if signal.Some? then Some(events[signal.value]) else None)
  {
    hide Disposition, Verdict, Trail, FindLast;
    var e :| e in events && Dies(id, e);
    assert IsDeathOf(id, e);
    var r := Classify(id, events, incomplete).value;
    var last := PositionOf(events, x => IsDeathOf(id, x), x => Dies(id, x));
    death := last.value;
    oom := PositionOf(events, x => IsOomCausing(id, r.timestampNs, x), x => Starved(id, r.timestampNs, x));
    signal := None;
    if r.disposition.Signalled? {
      signal := PositionOf(events, x => IsSignalCausing(id, r.disposition.signal, r.timestampNs, x),
                           x => Hit(id, r.disposition.signal, r.timestampNs, x));
    }
  }

  lemma PositionOf(events: seq<KernelEvent>, p: KernelEvent -> bool, q: KernelEvent -> bool) returns (i: Option<nat>)
    requires forall e :: p(e) <==> q(e)
    ensures FindLast(events, p) == if i.Some? && i.value < |events| then Some(events[i.value]) else None
    ensures i.Some? ==> IsLast(events, q, i.value)
    ensures i.None? ==> forall e | e in events :: !q(e)
  {
    hide FindLast;
    i := FindLastAt(events, p);
  }

  /** An out-of-memory record that decides the cause of a SIGKILL: of the process's own memory cgroup, of
      the whole machine, or of an unknown kind. */
  predicate Decides(e: KernelEvent, cgroupId: nat)
    requires e.OomVictim?
  {
    e.kind == Global || e.kind == UnknownKind || (e.kind == Memcg && e.cgroupId == cgroupId)
  }

  /** Each cause, by the records on which it rests. */
  ghost predicate CauseFits(events: seq<KernelEvent>, r: DeathReport, signal: Option<nat>, oom: Option<nat>)
    requires signal.Some? ==> signal.value < |events| && events[signal.value].SignalGenerated?
    requires oom.Some? ==> oom.value < |events| && events[oom.value].OomVictim?
  {
    var killed := r.disposition.Signalled? && r.disposition.signal == 9;
    match r.cause
    case NormalExit(status) => r.disposition == Exited(status)
    case CgroupOom(cgroup) =>
      killed && cgroup == r.cgroupId && oom.Some? && events[oom.value].kind == Memcg && events[oom.value].cgroupId == cgroup
    case GlobalOom => killed && oom.Some? && events[oom.value].kind == Global
    case UnknownCause => killed && oom.Some? && events[oom.value].kind == UnknownKind
    case FatalSignal(number, origin) =>
      && r.disposition.Signalled? && r.disposition.signal == number
      && !(number == 9 && oom.Some? && Decides(events[oom.value], r.cgroupId))
      && if signal.Some? then SentBy(events[signal.value], origin) else origin == UnknownOrigin
  }

  /** How far a cause is to be believed: certain for an exit status and a cgroup, high for a signal with a
      known sender and for the machine's memory, medium otherwise, and never above medium once telemetry
      was lost. */
  function Trust(cause: Cause, incomplete: bool): Confidence {
    if incomplete then Medium else
    match cause
    case NormalExit(_) => Confirmed
    case CgroupOom(_) => Confirmed
    case GlobalOom => High
    case UnknownCause => Medium
    case FatalSignal(_, origin) => if origin == UnknownOrigin then Medium else High
  }

  /** The trail: the exit, the signal if there is one, the out-of-memory record if there is one, and the
      loss if there was one, in this order. */
  ghost predicate TrailFits(events: seq<KernelEvent>, r: DeathReport, signal: Option<nat>, oom: Option<nat>, incomplete: bool)
    requires signal.Some? ==> signal.value < |events| && events[signal.value].SignalGenerated?
    requires oom.Some? ==> oom.value < |events| && events[oom.value].OomVictim?
  {
    var s := if signal.Some? then 1 else 0;
    var o := if oom.Some? then 1 else 0;
    && |r.evidence| == 1 + s + o + (if incomplete then 1 else 0)
    && r.evidence[0] == ExitEvidence(r.disposition)
    && (signal.Some? ==>
          && r.evidence[1].SignalEvidence? && r.evidence[1].signal == events[signal.value].signal
          && r.evidence[1].siCode == events[signal.value].siCode
          && SentBy(events[signal.value], r.evidence[1].origin))
    && (oom.Some? ==> r.evidence[1 + s] == OomEvidence(events[oom.value].kind, events[oom.value].cgroupId))
    && (incomplete ==> r.evidence[1 + s + o] == LossEvidence(0))
  }

  /** The whole report by the records it rests on: its cause, its confidence and its trail. */
  lemma ReportExactly(id: ProcessIdentity, events: seq<KernelEvent>, incomplete: bool)
      returns (death: nat, signal: Option<nat>, oom: Option<nat>)
    requires exists e | e in events :: Dies(id, e)
    ensures Classify(id, events, incomplete).Some?
    ensures var r := Classify(id, events, incomplete).value;
            && Basis(id, events, r, death, signal, oom)
            && events[death].ProcessExit? && r.disposition == Disposition(events[death].exitCode)
            && (signal.Some? ==> events[signal.value].SignalGenerated?)
            && (oom.Some? ==> events[oom.value].OomVictim?)
            && CauseFits(events, r, signal, oom)
            && r.confidence == Trust(r.cause, incomplete) && r.evidenceIncomplete == incomplete
            && TrailFits(events, r, signal, oom, incomplete)
  {
    hide Disposition, FindLast, LastDeath, LastOom, LastSignal;
    death, signal, oom := BasisOf(id, events, incomplete);
    hide Basis;
    var r := Classify(id, events, incomplete).value;
    if signal.Some? {
      var e := events[signal.value];
      OriginExactly(e, Origin(e.senderPid, e.senderUid, e.senderIsKernel));
    }
  }

  /** One cause fits: no two different ones rest on the same records. */
  lemma OneCauseFits(events: seq<KernelEvent>, r: DeathReport, q: DeathReport, signal: Option<nat>, oom: Option<nat>)
    requires signal.Some? ==> signal.value < |events| && events[signal.value].SignalGenerated?
    requires oom.Some? ==> oom.value < |events| && events[oom.value].OomVictim?
    requires r.disposition == q.disposition && r.cgroupId == q.cgroupId
    requires CauseFits(events, r, signal, oom) && CauseFits(events, q, signal, oom)
    ensures r.cause == q.cause
  {
  }

  /** The wait status, field by field: the low seven bits are the signal, the next bit says whether a core
      was dumped, the next eight are the exit status, and bits above are ignored. */
  lemma DispositionExactly(signal: nat, core: bool, status: nat, above: int)
    requires signal < 128 && status < 256
    ensures Disposition(signal + (if core then 128 else 0) + 256 * status + 65536 * above)
            == if signal == 0 then Exited(status) else Signalled(signal, core)
  {
    var low := signal + (if core then 128 else 0) + 256 * status;
    var rest := above % 65536;
    Wraps(low + 65536 * rest, above / 65536);
    assert low + 65536 * above == low + 65536 * rest + 0x1_0000_0000 * (above / 65536);
    Digits(signal, if core then 1 else 0, status, rest);
  }

  lemma Wraps(a: nat, q: int)
    requires a < 0x1_0000_0000
    ensures (a + 0x1_0000_0000 * q) % 0x1_0000_0000 == a
  {
  }

  lemma Digits(signal: nat, core: nat, status: nat, rest: nat)
    requires signal < 128 && core < 2 && status < 256 && rest < 65536
    ensures var raw := signal + 128 * core + 256 * status + 65536 * rest;
            raw % 0x80 == signal && raw / 0x80 % 2 == core && raw / 0x100 % 0x100 == status
  {
    var raw := signal + 128 * core + 256 * status + 65536 * rest;
    assert raw / 0x80 == core + 2 * status + 512 * rest;
    assert raw / 0x100 == status + 256 * rest;
  }
}
