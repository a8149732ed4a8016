/** Leased work queues (deploy/fleet/postgres/002_cloud_workloads.sql for reasoning jobs,
    005_worker_delivery_hardening.sql for notification deliveries) and the workers that drain them
    (crates/syspilot-cloud/src/bin/reasoning_worker.rs).

    One model serves both queues: only reasoning jobs keep a result row.  Times are microseconds of
    the database clock, which does not run backwards. */
module Leases {
  import opened Prelude

  type JobId = nat

  type Worker = nat

  datatype Kind = Reasoning | Notification

  /** `Leased` is 'running' or 'sending', `Done` is 'completed' or 'delivered'. */
  datatype Status = Pending | Leased | Done | Failed

  datatype Job = Job(
    status: Status, attempts: nat, availableAt: nat, leasedUntil: Option<nat>, failureCode: Option<string>)

  datatype Json = Object(text: string) | Scalar(text: string)

  datatype Queue = Queue(jobs: map<JobId, Job>, results: map<JobId, Json>)

  const SECOND := 1_000_000
  const LEASE := 30 * SECOND
  const RETRY_LIMIT := 10

  /** CHECK (attempt_count BETWEEN 0 AND 100). */
  const MAX_ATTEMPTS := 100

  // ---- The SQL functions ---------------------------------------------------------------------------

  predicate Eligible(job: Job, now: nat) {
    || (job.status == Pending && job.availableAt <= now)
    || (job.status == Leased && job.leasedUntil.Some? && job.leasedUntil.value < now)
  }

  /** ORDER BY available_at, job_id. */
  predicate Before(jobs: map<JobId, Job>, a: JobId, b: JobId)
    requires a in jobs && b in jobs
  {
    jobs[a].availableAt < jobs[b].availableAt || (jobs[a].availableAt == jobs[b].availableAt && a < b)
  }

  /** FOR UPDATE SKIP LOCKED LIMIT 1: the first eligible row no other transaction has locked. */
  predicate IsCandidate(q: Queue, now: nat, locked: set<JobId>, id: JobId) {
    && id in q.jobs && id !in locked && Eligible(q.jobs[id], now)
    && forall other | other in q.jobs && other !in locked && other != id && Eligible(q.jobs[other], now) ::
         Before(q.jobs, id, other)
  }

  /** The lease update raises, and changes nothing, when it would break the attempt check. */
  predicate LeaseRaises(q: Queue, id: JobId)
    requires id in q.jobs
  {
    q.jobs[id].attempts + 1 > MAX_ATTEMPTS
  }

  function LeaseJob(q: Queue, now: nat, id: JobId): Queue
    requires id in q.jobs
  {
    if LeaseRaises(q, id) then q else
    q.(jobs := q.jobs[id := q.jobs[id].(status := Leased, leasedUntil := Some(now + LEASE), attempts := q.jobs[id].attempts + 1)])
  }

  /** Returns false, yet keeps the result it was given, when the row is not leased any more. */
  function CompleteJob(kind: Kind, q: Queue, id: JobId, result: Json): (Queue, bool) {
    if id !in q.jobs || (kind == Reasoning && !result.Object?) then (q, false) else
    var results := if kind == Reasoning then q.results[id := result] else q.results;
    if q.jobs[id].status == Leased then
      (Queue(q.jobs[id := q.jobs[id].(status := Done, leasedUntil := None, failureCode := None)], results), true)
    else
      (q.(results := results), false)
  }

  function Power2(n: nat): nat {
    if n == 0 then 1 else 2 * Power2(n - 1)
  }

  /** LEAST(300, 2^LEAST(attempt_count, 8)) seconds. */
  function Backoff(attempts: nat): nat {
    var p := Power2(if attempts < 8 then attempts else 8);
    (if p < 300 then p else 300) * SECOND
  }

  function FailJob(q: Queue, now: nat, id: JobId, code: string): (Queue, bool) {
    if id !in q.jobs || q.jobs[id].status != Leased then (q, false) else
    var job := q.jobs[id];
    (q.(jobs := q.jobs[id := job.(
       status := if job.attempts >= RETRY_LIMIT then Failed else Pending,
       availableAt := now + Backoff(job.attempts),
       leasedUntil := None,
       failureCode := Some(if |code| > 100 then code[..100] else code))]), true)
  }

  // ---- Workers --------------------------------------------------------------------------------------

  datatype Response = Http(status: nat, body: Option<Json>) | TimedOut | TransportFailure

  function ClassifyResponse(response: Response): Result<Json, string> {
    match response
    case TimedOut => Err("provider_timeout")
    case TransportFailure => Err("transport_failure")
    case Http(status, body) =>
      if 300 <= status < 400 then Err("redirect_rejected")
      else if status == 429 then Err("rate_limited")
      else if 500 <= status < 600 then Err("provider_unavailable")
      else if !(200 <= status < 300) then Err("provider_rejected")
      else if body.Some? && body.value.Object? then Ok(body.value)
      else Err("invalid_response")
  }

  /** One granted lease; `reported` once its worker's complete or fail call has taken effect. */
  datatype Grant = Grant(worker: Worker, job: JobId, until: nat, reported: bool)

  datatype State = State(queue: Queue, now: nat, holding: map<Worker, nat>, grants: seq<Grant>)

  const START := State(Queue(map[], map[]), 0, map[], [])

  datatype Step =
    | Enqueue(id: JobId)
    | Tick(elapsed: nat)
    | TakeLease(worker: Worker, id: JobId, locked: set<JobId>)
    | Report(worker: Worker, response: Response)
    | Crash(worker: Worker)

  predicate Enabled(s: State, step: Step) {
    match step
    case Enqueue(id) => id !in s.queue.jobs
    case Tick(_) => true
    case TakeLease(worker, id, locked) => worker !in s.holding && IsCandidate(s.queue, s.now, locked, id)
    case Report(worker, _) => worker in s.holding && s.holding[worker] < |s.grants|
    case Crash(worker) => worker in s.holding
  }

  /** The worker's lease has not ended when its report reaches the database. */
  predicate Timely(s: State, step: Step)
    requires Enabled(s, step)
  {
    step.Report? ==> s.now <= s.grants[s.holding[step.worker]].until
  }

  function Reported(kind: Kind, s: State, id: JobId, response: Response): Queue {
    match ClassifyResponse(response)
    case Ok(result) => CompleteJob(kind, s.queue, id, result).0
    case Err(code) => FailJob(s.queue, s.now, id, code).0
  }

  function Next(kind: Kind, s: State, step: Step): State
    requires Enabled(s, step)
  {
    match step
    case Enqueue(id) => s.(queue := s.queue.(jobs := s.queue.jobs[id := Job(Pending, 0, s.now, None, None)]))
    case Tick(elapsed) => s.(now := s.now + elapsed)
    case TakeLease(worker, id, _) =>
      if LeaseRaises(s.queue, id) then s else
      s.(queue := LeaseJob(s.queue, s.now, id), holding := s.holding[worker := |s.grants|],
         grants := s.grants + [Grant(worker, id, s.now + LEASE, false)])
    case Report(worker, response) =>
      var g := s.holding[worker];
      s.(queue := Reported(kind, s, s.grants[g].job, response), holding := s.holding - {worker},
         grants := s.grants[g := s.grants[g].(reported := true)])
    case Crash(worker) => s.(holding := s.holding - {worker})
  }

  function Run(kind: Kind, steps: seq<Step>): State {
    if steps == [] then START else
    var s := Run(kind, steps[..|steps| - 1]);
    var step := steps[|steps| - 1];
    if Enabled(s, step) then Next(kind, s, step) else s
  }

  lemma RunOne(kind: Kind, steps: seq<Step>, step: Step) returns (s: State)
    ensures s == Run(kind, steps + [step])
    ensures s == if Enabled(Run(kind, steps), step) then Next(kind, Run(kind, steps), step) else Run(kind, steps)
  {
    s := Run(kind, steps + [step]);
    assert (steps + [step])[..|steps|] == steps;
  }

  /** Every report of the run is made before its own lease ends. */
  ghost predicate AllTimely(kind: Kind, steps: seq<Step>) {
    forall n | 0 <= n < |steps| ::
      var s := Run(kind, steps[..n]);
      Enabled(s, steps[n]) ==> Timely(s, steps[n])
  }

  // ---- What every run keeps ---------------------------------------------------------------------------

  function GrantsOf(grants: seq<Grant>, id: JobId): nat {
    if grants == [] then 0
    else GrantsOf(grants[..|grants| - 1], id) + if grants[|grants| - 1].job == id then 1 else 0
  }

  predicate JobSound(kind: Kind, s: State, id: JobId)
    requires id in s.queue.jobs
  {
    var job := s.queue.jobs[id];
    && job.attempts == GrantsOf(s.grants, id) <= MAX_ATTEMPTS
    && (job.status == Leased <==> job.leasedUntil.Some?)
    && (job.status == Done && kind == Reasoning ==> id in s.queue.results && s.queue.results[id].Object?)
    && (job.status == Failed ==> job.attempts >= RETRY_LIMIT)
  }

  ghost predicate Sound(kind: Kind, s: State) {
    && (forall id | id in s.queue.jobs :: JobSound(kind, s, id))
    && (forall g | g in s.grants :: g.job in s.queue.jobs)
    && (forall id | id in s.queue.results :: id in s.queue.jobs)
    && (forall w | w in s.holding :: s.holding[w] < |s.grants| && s.grants[s.holding[w]].worker == w)
  }

  lemma GrantsOfAppend(grants: seq<Grant>, g: Grant, id: JobId)
    ensures GrantsOf(grants + [g], id) == GrantsOf(grants, id) + if g.job == id then 1 else 0
  {
    assert (grants + [g])[..|grants|] == grants;
  }

  lemma {:induction false} GrantsOfUpdate(grants: seq<Grant>, i: nat, g: Grant, id: JobId)
    requires i < |grants| && g.job == grants[i].job
    ensures GrantsOf(grants[i := g], id) == GrantsOf(grants, id)
    decreases |grants|
  {
    var n := |grants| - 1;
    if i < n {
      GrantsOfUpdate(grants[..n], i, g, id);
      assert grants[i := g][..n] == grants[..n][i := g];
    } else {
      assert grants[i := g][..n] == grants[..n];
    }
  }

  lemma {:induction false} NoGrants(grants: seq<Grant>, id: JobId)
    requires forall g | g in grants :: g.job != id
    ensures GrantsOf(grants, id) == 0
  {
    if grants != [] {
      assert grants[|grants| - 1] in grants;
      NoGrants(grants[..|grants| - 1], id);
    }
  }

  lemma LeaseSound(kind: Kind, s: State, w: Worker, id: JobId, locked: set<JobId>)
    requires Sound(kind, s) && Enabled(s, TakeLease(w, id, locked))
    ensures Sound(kind, Next(kind, s, TakeLease(w, id, locked)))
  {
    if !LeaseRaises(s.queue, id) {
      var s' := Next(kind, s, TakeLease(w, id, locked));
      forall k | k in s'.queue.jobs
        ensures JobSound(kind, s', k)
      {
        assert JobSound(kind, s, k);
        GrantsOfAppend(s.grants, s'.grants[|s.grants|], k);
      }
    }
  }

  lemma ReportSound(kind: Kind, s: State, w: Worker, response: Response)
    requires Sound(kind, s) && Enabled(s, Report(w, response))
    ensures Sound(kind, Next(kind, s, Report(w, response)))
  {
    hide Backoff;
    var s' := Next(kind, s, Report(w, response));
    var g := s.holding[w];
    var id := s.grants[g].job;
    assert s.grants[g] in s.grants;
    ReportEffect(kind, s, id, response);
    forall k | k in s'.queue.jobs
      ensures JobSound(kind, s', k)
    {
      assert JobSound(kind, s, k);
      GrantsOfUpdate(s.grants, g, s'.grants[g], k);
    }
    forall h | h in s'.grants
      ensures h.job in s'.queue.jobs
    {
      assert h == s'.grants[g] || h in s.grants;
    }
  }

  /** What a report does to the queue: nothing to other rows, and to its own row only if it is leased. */
  lemma ReportEffect(kind: Kind, s: State, id: JobId, response: Response)
    requires id in s.queue.jobs
    ensures var q := Reported(kind, s, id, response);
            && q.jobs.Keys == s.queue.jobs.Keys
            && (forall k | k in q.jobs && k != id :: q.jobs[k] == s.queue.jobs[k])
            && s.queue.results.Keys <= q.results.Keys <= s.queue.results.Keys + {id}
            && (forall k | k in s.queue.results && k != id :: q.results[k] == s.queue.results[k])
            && q.jobs[id].attempts == s.queue.jobs[id].attempts
            && (s.queue.jobs[id].status != Leased ==> q.jobs[id] == s.queue.jobs[id])
            && (s.queue.jobs[id].status == Leased ==>
                  q.jobs[id].leasedUntil.None? && q.jobs[id].status != Leased
                  && (q.jobs[id].status == Failed ==> q.jobs[id].attempts >= RETRY_LIMIT)
                  && (kind == Reasoning && q.jobs[id].status == Done ==> id in q.results)
                  && (q.jobs[id].status != Done ==> q.results == s.queue.results))
            && (kind == Reasoning && id in q.results && id !in s.queue.results ==> q.results[id].Object?)
            && (kind == Reasoning && id in q.results && id in s.queue.results ==>
                  q.results[id].Object? || q.results[id] == s.queue.results[id])
  {
    hide Backoff;
  }

  lemma {:induction false} RunSound(kind: Kind, steps: seq<Step>)
    ensures Sound(kind, Run(kind, steps))
  {
    if steps != [] {
      var s, step := Run(kind, steps[..|steps| - 1]), steps[|steps| - 1];
      RunSound(kind, steps[..|steps| - 1]);
      if Enabled(s, step) {
        StepSound(kind, s, step);
      }
    }
  }

  lemma StepSound(kind: Kind, s: State, step: Step)
    requires Sound(kind, s) && Enabled(s, step)
    ensures Sound(kind, Next(kind, s, step))
  {
    match step {
      case TakeLease(w, id, locked) => LeaseSound(kind, s, w, id, locked);
      case Report(w, response) => ReportSound(kind, s, w, response);
      case Enqueue(id) => EnqueueSound(kind, s, id);
      case Tick(d) =>
        assert forall k | k in s.queue.jobs :: JobSound(kind, s, k) ==> JobSound(kind, Next(kind, s, step), k);
      case Crash(w) =>
        assert forall k | k in s.queue.jobs :: JobSound(kind, s, k) ==> JobSound(kind, Next(kind, s, step), k);
    }
  }

  lemma EnqueueSound(kind: Kind, s: State, id: JobId)
    requires Sound(kind, s) && id !in s.queue.jobs
    ensures Sound(kind, Next(kind, s, Enqueue(id)))
  {
    var s' := Next(kind, s, Enqueue(id));
    NoGrants(s.grants, id);
    forall k | k in s'.queue.jobs
      ensures JobSound(kind, s', k)
    {
      assert k != id ==> JobSound(kind, s, k);
    }
  }

  /** In every run, timely or not: the attempt count is the number of leases granted, a completed
      reasoning job has its result, and a job fails for good only after ten leases. */
  lemma QueueAccounts(kind: Kind, steps: seq<Step>, id: JobId)
    requires id in Run(kind, steps).queue.jobs
    ensures var s := Run(kind, steps);
            var job := s.queue.jobs[id];
            && job.attempts == GrantsOf(s.grants, id) <= MAX_ATTEMPTS
            && (kind == Reasoning && job.status == Done ==> id in s.queue.results && s.queue.results[id].Object?)
            && (job.status == Failed ==> GrantsOf(s.grants, id) >= RETRY_LIMIT)
  {
    RunSound(kind, steps);
    assert JobSound(kind, Run(kind, steps), id);
  }

  /** Completed and failed are final: the row never changes again, whatever stale workers report. */
  lemma {:induction false} TerminalIsFinal(kind: Kind, steps: seq<Step>, more: seq<Step>, id: JobId)
    requires id in Run(kind, steps).queue.jobs
    requires Run(kind, steps).queue.jobs[id].status in {Done, Failed}
    ensures id in Run(kind, steps + more).queue.jobs
    ensures Run(kind, steps + more).queue.jobs[id] == Run(kind, steps).queue.jobs[id]
  {
    hide Run, Enabled, Next, Sound;
    if more == [] {
      assert steps + more == steps;
    } else {
      var front, step := more[..|more| - 1], more[|more| - 1];
      TerminalIsFinal(kind, steps, front, id);
      var s := Run(kind, steps + front);
      RunSound(kind, steps + front);
      assert steps + more == (steps + front) + [step];
      var s' := RunOne(kind, steps + front, step);
      if Enabled(s, step) {
        TerminalStep(kind, s, step, id);
      }
    }
  }

  lemma TerminalStep(kind: Kind, s: State, step: Step, id: JobId)
    requires Sound(kind, s) && Enabled(s, step)
    requires id in s.queue.jobs && s.queue.jobs[id].status in {Done, Failed}
    ensures id in Next(kind, s, step).queue.jobs && Next(kind, s, step).queue.jobs[id] == s.queue.jobs[id]
  {
    hide Reported;
    if step.Report? {
      assert s.grants[s.holding[step.worker]] in s.grants;
      ReportEffect(kind, s, s.grants[s.holding[step.worker]].job, step.response);
    }
  }

  /** A failed attempt waits two seconds at least and 256 at most: the limit of 300 is never reached. */
  lemma BackoffRange(attempts: nat)
    requires attempts > 0
    ensures 2 * SECOND <= Backoff(attempts) <= 256 * SECOND
    ensures attempts >= 8 ==> Backoff(attempts) == 256 * SECOND
    ensures Backoff(1) == 2_000_000 && (attempts < 8 ==> Backoff(attempts + 1) == 2 * Backoff(attempts))
  {
    var n := if attempts < 8 then attempts else 8;
    assert Power2(4) == 16 && Power2(8) == 16 * Power2(4);
    PowersGrow(1, n);
    PowersGrow(n, 8);
  }

  lemma {:induction false} PowersGrow(m: nat, n: nat)
    requires m <= n
    ensures 1 <= Power2(m) <= Power2(n)
  {
    if m < n {
      PowersGrow(m, n - 1);
    } else if m > 0 {
      PowersGrow(m - 1, n - 1);
    }
  }

  /** A job waiting for its time is not leased, nor changed by any stale report, before that time. */
  lemma {:induction false} NotBeforeAvailable(kind: Kind, steps: seq<Step>, more: seq<Step>, id: JobId)
    requires id in Run(kind, steps).queue.jobs && Run(kind, steps).queue.jobs[id].status == Pending
    requires Run(kind, steps + more).now < Run(kind, steps).queue.jobs[id].availableAt
    ensures id in Run(kind, steps + more).queue.jobs
    ensures Run(kind, steps + more).queue.jobs[id] == Run(kind, steps).queue.jobs[id]
    ensures GrantsOf(Run(kind, steps + more).grants, id) == GrantsOf(Run(kind, steps).grants, id)
  {
    hide Run, Enabled, Next, Sound;
    if more == [] {
      assert steps + more == steps;
    } else {
      var front, step := more[..|more| - 1], more[|more| - 1];
      var s := Run(kind, steps + front);
      RunSound(kind, steps + front);
      assert steps + more == (steps + front) + [step];
      var s' := RunOne(kind, steps + front, step);
      if Enabled(s, step) {
        PendingStep(kind, s, step, id);
      }
      NotBeforeAvailable(kind, steps, front, id);
    }
  }

  lemma PendingStep(kind: Kind, s: State, step: Step, id: JobId)
    requires Sound(kind, s) && Enabled(s, step)
    ensures s.now <= Next(kind, s, step).now
    ensures id in s.queue.jobs && s.queue.jobs[id].status == Pending && s.now < s.queue.jobs[id].availableAt ==>
              && id in Next(kind, s, step).queue.jobs && Next(kind, s, step).queue.jobs[id] == s.queue.jobs[id]
              && GrantsOf(Next(kind, s, step).grants, id) == GrantsOf(s.grants, id)
  {
    hide Reported, GrantsOf;
    if step.Report? {
      var g := s.holding[step.worker];
      assert s.grants[g] in s.grants;
      ReportEffect(kind, s, s.grants[g].job, step.response);
      GrantsOfUpdate(s.grants, g, s.grants[g].(reported := true), id);
    } else if step.TakeLease? {
      GrantsOfAppend(s.grants, Grant(step.worker, step.id, s.now + LEASE, false), id);
    }
  }

  // ---- Exclusion ------------------------------------------------------------------------------------------

  /** A lease that has neither ended nor been reported. */
  predicate Live(s: State, i: nat)
    requires i < |s.grants|
  {
    !s.grants[i].reported && s.now <= s.grants[i].until
  }

  /** A live lease is the one its row records, and the row's latest; a result exists only for a
      completed job. */
  ghost predicate Exclusive(s: State) {
    && (forall i: nat | i < |s.grants| && Live(s, i) ::
          && s.grants[i].job in s.queue.jobs
          && s.queue.jobs[s.grants[i].job].status == Leased
          && s.queue.jobs[s.grants[i].job].leasedUntil == Some(s.grants[i].until)
          && forall j: nat | i < j < |s.grants| :: s.grants[j].job != s.grants[i].job)
    && (forall w, v | w in s.holding && v in s.holding && s.holding[w] == s.holding[v] :: w == v)
    && (forall w | w in s.holding :: s.holding[w] < |s.grants| && !s.grants[s.holding[w]].reported)
  }

  ghost predicate ResultsExact(s: State) {
    forall id | id in s.queue.results :: id in s.queue.jobs && s.queue.jobs[id].status == Done
  }

  lemma LeaseExclusive(kind: Kind, s: State, w: Worker, id: JobId, locked: set<JobId>)
    requires Sound(kind, s) && Exclusive(s) && Enabled(s, TakeLease(w, id, locked))
    ensures Exclusive(Next(kind, s, TakeLease(w, id, locked)))
  {
    if !LeaseRaises(s.queue, id) {
      var s' := Next(kind, s, TakeLease(w, id, locked));
      forall i: nat | i < |s'.grants| && Live(s', i)
        ensures s'.queue.jobs[s'.grants[i].job].leasedUntil == Some(s'.grants[i].until)
        ensures s'.queue.jobs[s'.grants[i].job].status == Leased
        ensures i < |s.grants| ==> s.grants[i].job != id
      {
        if i < |s.grants| {
          assert Live(s, i);
        }
      }
    }
  }

  lemma OnlyLive(s: State, i: nat, j: nat)
    requires Exclusive(s) && i < |s.grants| && j < |s.grants| && Live(s, i) && Live(s, j)
    ensures s.grants[i].job == s.grants[j].job ==> i == j
  {
  }

  lemma ReportExclusive(kind: Kind, s: State, w: Worker, response: Response)
    requires Sound(kind, s) && Exclusive(s) && ResultsExact(s)
    requires Enabled(s, Report(w, response)) && Timely(s, Report(w, response))
    ensures Exclusive(Next(kind, s, Report(w, response))) && ResultsExact(Next(kind, s, Report(w, response)))
  {
    hide Reported, Sound;
    var s' := Next(kind, s, Report(w, response));
    var g := s.holding[w];
    var id := s.grants[g].job;
    assert Live(s, g);
    ReportEffect(kind, s, id, response);
    forall i: nat | i < |s'.grants| && Live(s', i)
      ensures i != g && Live(s, i) && s.grants[i].job != id
    {
      OnlyLive(s, i, g);
    }
  }

  lemma StepExclusive(kind: Kind, s: State, step: Step)
    requires Sound(kind, s) && Exclusive(s) && ResultsExact(s) && Enabled(s, step) && Timely(s, step)
    ensures Exclusive(Next(kind, s, step)) && ResultsExact(Next(kind, s, step))
  {
    match step {
      case TakeLease(w, id, locked) => LeaseExclusive(kind, s, w, id, locked);
      case Report(w, response) => ReportExclusive(kind, s, w, response);
      case Enqueue(id) =>
      case Tick(d) =>
        forall i: nat | i < |s.grants| && Live(Next(kind, s, step), i)
          ensures Live(s, i)
        {
        }
      case Crash(w) =>
        assert forall i: nat | i < |s.grants| :: Live(Next(kind, s, step), i) <==> Live(s, i);
    }
  }

  lemma {:induction false} RunExclusive(kind: Kind, steps: seq<Step>)
    requires AllTimely(kind, steps)
    ensures Exclusive(Run(kind, steps)) && ResultsExact(Run(kind, steps))
  {
    if steps != [] {
      var front, step := steps[..|steps| - 1], steps[|steps| - 1];
      assert forall n | 0 <= n < |front| :: front[..n] == steps[..n];
      RunExclusive(kind, front);
      RunSound(kind, front);
      if Enabled(Run(kind, front), step) {
        StepExclusive(kind, Run(kind, front), step);
      }
    }
  }

  // ---- When exactly exclusion is lost -----------------------------------------------------------------------

  /** Two leases of one job are live. */
  ghost predicate Doubled(s: State, id: JobId) {
    exists i: nat, j: nat :: i < j && LiveOf(s, i, id) && LiveOf(s, j, id)
  }

  ghost predicate LiveOf(s: State, i: nat, id: JobId) {
    i < |s.grants| && s.grants[i].job == id && Live(s, i)
  }

  lemma FewerLives(s: State, s': State, id: JobId)
    requires !Doubled(s, id) && forall i: nat | LiveOf(s', i, id) :: LiveOf(s, i, id)
    ensures !Doubled(s', id)
  {
    hide LiveOf;
  }

  /** Leases end no later than the row says while it is leased, and none ends more than one lease from
      now; only a job with attempts left waits. */
  ghost predicate Clocked(s: State) {
    && (forall g | g in s.grants :: g.job in s.queue.jobs && g.until <= s.now + LEASE)
    && (forall g | g in s.grants && s.queue.jobs[g.job].status == Leased ::
          s.queue.jobs[g.job].leasedUntil.Some? && g.until <= s.queue.jobs[g.job].leasedUntil.value)
    && (forall id | id in s.queue.jobs && s.queue.jobs[id].status == Pending :: s.queue.jobs[id].attempts < RETRY_LIMIT)
  }

  /** The job waits, and may be leased again before lease `i` ends. */
  ghost predicate EndangeredBy(s: State, id: JobId, i: nat) {
    && LiveOf(s, i, id) && id in s.queue.jobs
    && s.queue.jobs[id].status == Pending && s.queue.jobs[id].availableAt <= s.grants[i].until
  }

  ghost predicate Endangered(s: State, id: JobId) {
    exists i :: EndangeredBy(s, id, i)
  }

  /** The report of lease `g` is a failure that puts the job back in time for lease `i`, still running,
      to be overtaken. */
  ghost predicate PutsBackUnder(s: State, g: nat, response: Response, i: nat)
    requires g < |s.grants| && s.grants[g].job in s.queue.jobs
  {
    var id := s.grants[g].job;
    var job := s.queue.jobs[id];
    && i != g && LiveOf(s, i, id)
    && ClassifyResponse(response).Err? && job.status == Leased && job.attempts < RETRY_LIMIT
    && s.now + Backoff(job.attempts) <= s.grants[i].until
  }

  ghost predicate PutsBack(s: State, g: nat, response: Response)
    requires g < |s.grants| && s.grants[g].job in s.queue.jobs
  {
    exists i :: PutsBackUnder(s, g, response, i)
  }

  lemma StepClocked(kind: Kind, s: State, step: Step)
    requires Sound(kind, s) && Clocked(s) && Enabled(s, step)
    ensures Clocked(Next(kind, s, step))
  {
    hide Reported, Backoff, JobSound, IsCandidate;
    var s' := Next(kind, s, step);
    match step {
      case Enqueue(id) =>
      case Tick(_) =>
      case Crash(_) =>
      case TakeLease(w, id, _) =>
        assert id in s.queue.jobs by { LeasedExists(s, step); }
      case Report(w, response) =>
        var g := s.holding[w];
        assert s.grants[g] in s.grants;
        ReportPutsBack(kind, s, s.grants[g].job, response);
        forall h | h in s'.grants
          ensures exists k :: k in s.grants && k.job == h.job && k.until == h.until
        {
          assert h in s.grants || h == s'.grants[g];
          assert (if h in s.grants then h else s.grants[g]) in s.grants;
        }
    }
  }

  lemma LeasedExists(s: State, step: Step)
    requires step.TakeLease? && Enabled(s, step)
    ensures step.id in s.queue.jobs && step.id !in step.locked && Eligible(s.queue.jobs[step.id], s.now)
  {
  }

  /** A report moves no row to another state except its own out of a lease; a failure sets the time. */
  lemma ReportPutsBack(kind: Kind, s: State, id: JobId, response: Response)
    requires id in s.queue.jobs
    ensures var q := Reported(kind, s, id, response);
            var job := s.queue.jobs[id];
            && q.jobs.Keys == s.queue.jobs.Keys
            && (forall k | k in q.jobs && k != id :: q.jobs[k] == s.queue.jobs[k])
            && (job.status != Leased ==> q.jobs[id] == job)
            && q.jobs[id].attempts == job.attempts
            && (job.status == Leased ==>
                  && q.jobs[id].status != Leased
                  && (q.jobs[id].status == Pending <==> ClassifyResponse(response).Err? && job.attempts < RETRY_LIMIT)
                  && (q.jobs[id].status == Pending ==> q.jobs[id].availableAt == s.now + Backoff(job.attempts)))
  {
    hide Backoff;
  }

  lemma {:induction false} RunClocked(kind: Kind, steps: seq<Step>)
    ensures Clocked(Run(kind, steps))
  {
    hide Enabled, Next, Clocked, Sound;
    if steps == [] {
      StartClocked(kind);
    } else {
      var front, step := steps[..|steps| - 1], steps[|steps| - 1];
      RunClocked(kind, front);
      RunSound(kind, front);
      if Enabled(Run(kind, front), step) {
        StepClocked(kind, Run(kind, front), step);
      }
    }
  }

  lemma StartClocked(kind: Kind)
    ensures Clocked(START)
  {
  }

  /** Ticks and leases alone. */
  predicate IsQuiet(step: Step) {
    step.Tick? || step.TakeLease?
  }

  predicate Quiet(more: seq<Step>) {
    forall step | step in more :: IsQuiet(step)
  }

  /** Without danger a tick or a lease brings neither danger nor a second live lease. */
  lemma QuietStep(kind: Kind, s: State, step: Step, id: JobId)
    requires Clocked(s) && Enabled(s, step) && IsQuiet(step) && !Doubled(s, id) && !Endangered(s, id)
    ensures !Doubled(Next(kind, s, step), id) && !Endangered(Next(kind, s, step), id)
  {
    hide Clocked, IsCandidate;
    var s' := Next(kind, s, step);
    if step.TakeLease? {
      LeasedExists(s, step);
      if step.id == id && !LeaseRaises(s.queue, id) {
        forall i: nat | i < |s.grants|
          ensures !LiveOf(s', i, id)
        {
          if LiveOf(s, i, id) {
            assert !EndangeredBy(s, id, i);
            EndsInTime(s, i, id);
          }
        }
      } else {
        SameLives(s, s', id);
      }
    } else {
      forall i: nat | LiveOf(s', i, id)
        ensures LiveOf(s, i, id)
      {
      }
      forall i: nat
        ensures !EndangeredBy(s', id, i)
      {
        assert !EndangeredBy(s, id, i);
      }
    }
  }

  lemma EndsInTime(s: State, i: nat, id: JobId)
    requires Clocked(s) && i < |s.grants| && s.grants[i].job == id
    ensures id in s.queue.jobs && s.grants[i].until <= s.now + LEASE
    ensures s.queue.jobs[id].status == Leased ==>
              s.queue.jobs[id].leasedUntil.Some? && s.grants[i].until <= s.queue.jobs[id].leasedUntil.value
  {
    assert s.grants[i] in s.grants;
  }

  /** Where this job's leases and row are the same, so are doubling and danger. */
  lemma SameLives(s: State, s': State, id: JobId)
    requires forall i: nat :: LiveOf(s', i, id) <==> LiveOf(s, i, id)
    requires forall i: nat | LiveOf(s, i, id) :: LiveOf(s', i, id) && s'.grants[i].until == s.grants[i].until
    requires (id in s'.queue.jobs <==> id in s.queue.jobs)
    requires id in s.queue.jobs ==> s'.queue.jobs[id] == s.queue.jobs[id]
    ensures Doubled(s', id) <==> Doubled(s, id)
    ensures forall i: nat :: EndangeredBy(s', id, i) <==> EndangeredBy(s, id, i)
    ensures Endangered(s', id) <==> Endangered(s, id)
  {
  }

  lemma {:induction false} QuietRun(kind: Kind, steps: seq<Step>, more: seq<Step>, id: JobId)
    requires Quiet(more) && !Doubled(Run(kind, steps), id) && !Endangered(Run(kind, steps), id)
    ensures !Doubled(Run(kind, steps + more), id) && !Endangered(Run(kind, steps + more), id)
  {
    hide Run, Enabled, Next, Doubled, Endangered;
    if more == [] {
      assert steps + more == steps;
    } else {
      var front, step := more[..|more| - 1], more[|more| - 1];
      QuietRun(kind, steps, front, id);
      assert steps + more == (steps + front) + [step];
      var s' := RunOne(kind, steps + front, step);
      RunClocked(kind, steps + front);
      if Enabled(Run(kind, steps + front), step) {
        QuietStep(kind, Run(kind, steps + front), step, id);
      }
    }
  }

  lemma {:induction false} SomebodyIdle(holding: map<Worker, nat>, n: nat) returns (w: Worker)
    ensures w !in holding && w >= n
    decreases |set v | v in holding && v >= n|
  {
    if n !in holding {
      w := n;
    } else {
      var here, there := set v | v in holding && v >= n, set v | v in holding && v >= n + 1;
      assert there == here - {n};
      w := SomebodyIdle(holding, n + 1);
    }
  }

  /** A job in danger does get a second live lease: wait until it may be leased, then lease it while
      the rows before it are locked. */
  lemma DangerStrikes(kind: Kind, steps: seq<Step>, id: JobId) returns (more: seq<Step>)
    requires Endangered(Run(kind, steps), id)
    ensures Quiet(more) && Doubled(Run(kind, steps + more), id)
  {
    hide Clocked, Endangered;
    var s := Run(kind, steps);
    RunClocked(kind, steps);
    var i: nat := Danger(s, id);
    var job := s.queue.jobs[id];
    PendingHasAttempts(s, id);
    var w := SomebodyIdle(s.holding, 0);
    var tick := Tick(if job.availableAt > s.now then job.availableAt - s.now else 0);
    var s1 := RunOne(kind, steps, tick);
    var lease := TakeLease(w, id, s.queue.jobs.Keys - {id});
    assert IsCandidate(s1.queue, s1.now, lease.locked, id);
    var s2 := RunOne(kind, steps + [tick], lease);
    more := [tick, lease];
    assert steps + more == (steps + [tick]) + [lease];
    assert s2.grants == s.grants + [Grant(w, id, s1.now + LEASE, false)];
    assert LiveOf(s2, i, id) && LiveOf(s2, |s.grants|, id);
  }

  lemma Danger(s: State, id: JobId) returns (i: nat)
    requires Endangered(s, id)
    ensures EndangeredBy(s, id, i)
  {
    i :| EndangeredBy(s, id, i);
  }

  lemma PendingHasAttempts(s: State, id: JobId)
    requires Clocked(s) && id in s.queue.jobs && s.queue.jobs[id].status == Pending
    ensures s.queue.jobs[id].attempts < RETRY_LIMIT
  {
  }

  /** From any reachable state with at most one live lease of a job, ticks and leases alone can lead to
      two if and only if the job waits and may be leased before its live lease ends. */
  lemma DangerExactly(kind: Kind, steps: seq<Step>, id: JobId)
    requires !Doubled(Run(kind, steps), id)
    ensures (exists more :: Quiet(more) && Doubled(Run(kind, steps + more), id)) <==> Endangered(Run(kind, steps), id)
  {
    hide Run, Doubled, Endangered, Quiet;
    if Endangered(Run(kind, steps), id) {
      var more := DangerStrikes(kind, steps, id);
    } else {
      forall more | Quiet(more)
        ensures !Doubled(Run(kind, steps + more), id)
      {
        QuietRun(kind, steps, more, id);
      }
    }
  }

  /** What a report does to danger, job by job. */
  lemma ReportDanger(kind: Kind, s: State, w: Worker, response: Response, id: JobId)
    requires Sound(kind, s) && Clocked(s) && Enabled(s, Report(w, response)) && !Doubled(s, id)
    ensures var s' := Next(kind, s, Report(w, response));
            var g := s.holding[w];
            && s.grants[g].job in s.queue.jobs && !Doubled(s', id)
            && (s.grants[g].job != id ==> (Endangered(s', id) <==> Endangered(s, id)))
            && (s.grants[g].job == id ==>
                  (Endangered(s', id) <==> PutsBack(s, g, response) || exists i :: i != g && EndangeredBy(s, id, i)))
  {
    hide Reported, Backoff, Sound, Clocked;
    var s' := Next(kind, s, Report(w, response));
    var g := s.holding[w];
    EndsInTime(s, g, s.grants[g].job);
    ReportPutsBack(kind, s, s.grants[g].job, response);
    assert forall i: nat | i != g :: LiveOf(s', i, id) <==> LiveOf(s, i, id);
    assert !LiveOf(s', g, id);
    if s.grants[g].job != id {
      SameLives(s, s', id);
    } else {
      forall i: nat
        ensures EndangeredBy(s', id, i) <==> PutsBackUnder(s, g, response, i) || (i != g && EndangeredBy(s, id, i))
      {
      }
      FewerLives(s, s', id);
    }
  }

  /** From any reachable state with at most one live lease of the job, a report lets ticks and leases
      alone give the job two live leases, if and only if some other lease of it is live and either the
      job is waiting already with a time before that lease ends, or the report is a failure that finds
      the row leased, has attempts left, and puts the job back with such a time. */
  lemma ReportBreaksExactly(kind: Kind, steps: seq<Step>, w: Worker, response: Response)
    requires Enabled(Run(kind, steps), Report(w, response))
    requires var s := Run(kind, steps); !Doubled(s, s.grants[s.holding[w]].job)
    ensures var s := Run(kind, steps);
            var g := s.holding[w];
            var id := s.grants[g].job;
            && id in s.queue.jobs
            && ((exists more :: Quiet(more) && Doubled(Run(kind, steps + [Report(w, response)] + more), id))
                <==> PutsBack(s, g, response) || exists i :: i != g && EndangeredBy(s, id, i))
  {
    hide Run, Doubled, Endangered, EndangeredBy, Quiet, PutsBack, Next;
    var s := Run(kind, steps);
    RunSound(kind, steps);
    RunClocked(kind, steps);
    ReportDanger(kind, s, w, response, s.grants[s.holding[w]].job);
    var s' := RunOne(kind, steps, Report(w, response));
    DangerExactly(kind, steps + [Report(w, response)], s.grants[s.holding[w]].job);
  }

  /** From the fifth lease on the backoff is longer than a lease, and a report can do no harm. */
  lemma FifthLeaseIsSafe(kind: Kind, steps: seq<Step>, w: Worker, response: Response)
    requires Enabled(Run(kind, steps), Report(w, response))
    ensures var s := Run(kind, steps);
            var g := s.holding[w];
            && s.grants[g].job in s.queue.jobs
            && (s.queue.jobs[s.grants[g].job].attempts >= 5 ==> !PutsBack(s, g, response))
  {
    hide Run, Clocked, Backoff;
    var s := Run(kind, steps);
    var g := s.holding[w];
    RunClocked(kind, steps);
    EndsInTime(s, g, s.grants[g].job);
    var attempts := s.queue.jobs[s.grants[g].job].attempts;
    if attempts >= 5 {
      LongBackoff(attempts);
      forall i: nat | i < |s.grants|
        ensures s.grants[i].until <= s.now + LEASE
      {
        EndsInTime(s, i, s.grants[i].job);
      }
    }
  }

  lemma LongBackoff(attempts: nat)
    requires attempts >= 5
    ensures Backoff(attempts) >= 32 * SECOND > LEASE
  {
    assert Power2(2) == 4;
    assert Power2(5) == 8 * Power2(2);
    PowersGrow(5, if attempts < 8 then attempts else 8);
  }

  /** The step is a report that puts its job back under a live lease. */
  ghost predicate Harmful(s: State, step: Step) {
    && step.Report? && Enabled(s, step)
    && s.grants[s.holding[step.worker]].job in s.queue.jobs
    && PutsBack(s, s.holding[step.worker], step.response)
  }

  ghost predicate NoneHarmful(kind: Kind, steps: seq<Step>) {
    forall n | 0 <= n < |steps| :: !Harmful(Run(kind, steps[..n]), steps[n])
  }

  /** No job is leased twice, nor can ticks and leases alone lead to it. */
  ghost predicate Guarded(s: State) {
    forall id :: !Doubled(s, id) && !Endangered(s, id)
  }

  lemma StepGuarded(kind: Kind, s: State, step: Step)
    requires Sound(kind, s) && Clocked(s) && Guarded(s) && Enabled(s, step)
    ensures Guarded(Next(kind, s, step)) <==> !Harmful(s, step)
  {
    hide Sound, Clocked, Doubled, Endangered, PutsBack;
    var s' := Next(kind, s, step);
    match step {
      case Enqueue(id) => EnqueueGuarded(kind, s, id);
      case Crash(w) =>
        forall id
          ensures !Doubled(s', id) && !Endangered(s', id)
        {
          SameLives(s, s', id);
        }
      case Report(w, response) =>
        forall id
          ensures s.grants[s.holding[w]].job != id ==> !Doubled(s', id) && !Endangered(s', id)
        {
          ReportDanger(kind, s, w, response, id);
        }
        var id := s.grants[s.holding[w]].job;
        ReportDanger(kind, s, w, response, id);
        NoDanger(s, id);
      case Tick(_) =>
        forall id
          ensures !Doubled(s', id) && !Endangered(s', id)
        {
          QuietStep(kind, s, step, id);
        }
      case TakeLease(_, _, _) =>
        forall id
          ensures !Doubled(s', id) && !Endangered(s', id)
        {
          QuietStep(kind, s, step, id);
        }
    }
  }

  lemma NoDanger(s: State, id: JobId)
    requires !Endangered(s, id)
    ensures forall i :: !EndangeredBy(s, id, i)
  {
  }

  lemma EnqueueGuarded(kind: Kind, s: State, id: JobId)
    requires Clocked(s) && Guarded(s) && Enabled(s, Enqueue(id))
    ensures Guarded(Next(kind, s, Enqueue(id)))
  {
    hide Clocked, Doubled, Endangered;
    var s' := Next(kind, s, Enqueue(id));
    forall k
      ensures !Doubled(s', k) && !Endangered(s', k)
    {
      if k != id {
        SameLives(s, s', k);
      } else {
        forall i: nat | i < |s.grants|
          ensures s.grants[i].job != id
        {
          EndsInTime(s, i, s.grants[i].job);
        }
        assert forall i: nat :: !LiveOf(s', i, id);
        NoLives(s', id);
      }
    }
  }

  lemma NoLives(s: State, id: JobId)
    requires forall i: nat :: !LiveOf(s, i, id)
    ensures !Doubled(s, id) && !Endangered(s, id)
  {
    hide LiveOf;
  }

  /** In every run, no state lets ticks and leases alone lead to two live leases of a job, if and only if
      no report of the run puts its job back under a live lease. */
  lemma {:induction false} ExclusionExactly(kind: Kind, steps: seq<Step>)
    ensures (forall n | 0 <= n <= |steps| :: Guarded(Run(kind, steps[..n]))) <==> NoneHarmful(kind, steps)
  {
    hide Run, Enabled, Next, Sound, Guarded, PutsBack;
    if steps == [] {
      StartGuarded(kind);
    } else {
      var n := |steps| - 1;
      var front, step := steps[..n], steps[n];
      ExclusionExactly(kind, front);
      assert forall k | 0 <= k <= n :: front[..k] == steps[..k];
      assert steps[..n + 1] == steps && front + [step] == steps;
      RunSound(kind, front);
      RunClocked(kind, front);
      var s' := RunOne(kind, front, step);
      assert front[..n] == front;
      if Guarded(Run(kind, front)) && Enabled(Run(kind, front), step) {
        StepGuarded(kind, Run(kind, front), step);
      }
      assert forall k | 0 <= k < n :: Harmful(Run(kind, front[..k]), front[k]) <==> Harmful(Run(kind, steps[..k]), steps[k]);
    }
  }

  lemma StartGuarded(kind: Kind)
    ensures Guarded(Run(kind, []))
  {
  }

  /** A report within its own lease is never harmful, as no other lease of the job is live then. */
  lemma TimelyIsHarmless(kind: Kind, steps: seq<Step>)
    requires AllTimely(kind, steps)
    ensures NoneHarmful(kind, steps)
  {
    hide Run, Sound, Backoff;
    forall n | 0 <= n < |steps|
      ensures !Harmful(Run(kind, steps[..n]), steps[n])
    {
      var s := Run(kind, steps[..n]);
      RunSound(kind, steps[..n]);
      assert forall k | 0 <= k < n :: steps[..n][..k] == steps[..k];
      RunExclusive(kind, steps[..n]);
      if Enabled(s, steps[n]) && steps[n].Report? {
        var g := s.holding[steps[n].worker];
        assert Live(s, g);
        forall i: nat | i < |s.grants| && s.grants[i].job == s.grants[g].job && Live(s, i)
          ensures i == g
        {
          OnlyLive(s, i, g);
        }
      }
    }
  }

  lemma NotDoubled(s: State, id: JobId, i: nat, j: nat)
    requires !Doubled(s, id) && i < j < |s.grants| && s.grants[i].job == id == s.grants[j].job
    ensures !(Live(s, i) && Live(s, j))
  {
    assert LiveOf(s, i, id) && LiveOf(s, j, id) ==> Doubled(s, id);
  }

  /** If every worker reports within its own lease or never, no job ever has two live leases, under
      any interleaving of workers, clock ticks and crashes. */
  lemma LeaseExclusion(kind: Kind, steps: seq<Step>, i: nat, j: nat)
    requires AllTimely(kind, steps) && i < j < |Run(kind, steps).grants|
    ensures var s := Run(kind, steps);
            s.grants[i].job == s.grants[j].job ==> !(Live(s, i) && Live(s, j))
  {
    hide Run, Live;
    TimelyIsHarmless(kind, steps);
    ExclusionExactly(kind, steps);
    assert steps[..|steps|] == steps;
    var s := Run(kind, steps);
    assert Guarded(s);
    if s.grants[i].job == s.grants[j].job {
      NotDoubled(s, s.grants[i].job, i, j);
    }
  }

  lemma ResultsMatchCompletion(steps: seq<Step>, id: JobId)
    requires AllTimely(Reasoning, steps) && id in Run(Reasoning, steps).queue.jobs
    ensures id in Run(Reasoning, steps).queue.results <==> Run(Reasoning, steps).queue.jobs[id].status == Done
  {
    RunExclusive(Reasoning, steps);
    RunSound(Reasoning, steps);
    assert JobSound(Reasoning, Run(Reasoning, steps), id);
  }

  /** The report delivers a result for a job that is neither leased nor completed any more. */
  predicate Stray(kind: Kind, s: State, step: Step) {
    && kind == Reasoning && step.Report? && Enabled(s, step) && ClassifyResponse(step.response).Ok?
    && s.grants[s.holding[step.worker]].job in s.queue.jobs
    && s.queue.jobs[s.grants[s.holding[step.worker]].job].status in {Pending, Failed}
  }

  /** Results exist for completed jobs only, as long as no such report comes; such a report ends it. */
  lemma StrayExactly(kind: Kind, s: State, step: Step)
    requires kind == Reasoning && Sound(kind, s) && ResultsExact(s) && Enabled(s, step)
    ensures ResultsExact(Next(kind, s, step)) <==> !Stray(kind, s, step)
  {
    hide JobSound, IsCandidate, Backoff;
    var s' := Next(kind, s, step);
    if step.Report? {
      var g := s.holding[step.worker];
      assert s.grants[g] in s.grants;
      var id := s.grants[g].job;
      if Stray(kind, s, step) {
        assert id in s'.queue.results;
      }
    } else if step.TakeLease? {
      LeasedExists(s, step);
    }
  }

  /** In every run, results belong to completed jobs at every step if and only if no report of the run
      is a stray result. */
  lemma {:induction false} ResultsExactly(steps: seq<Step>)
    ensures (forall n | 0 <= n <= |steps| :: ResultsExact(Run(Reasoning, steps[..n])))
            <==> forall n | 0 <= n < |steps| :: !Stray(Reasoning, Run(Reasoning, steps[..n]), steps[n])
  {
    hide Run, Enabled, Next, Sound, ResultsExact;
    if steps == [] {
      NoResults();
    } else {
      var n := |steps| - 1;
      var front, step := steps[..n], steps[n];
      ResultsExactly(front);
      assert forall k | 0 <= k <= n :: front[..k] == steps[..k];
      assert steps[..n + 1] == steps && front + [step] == steps && front[..n] == front;
      RunSound(Reasoning, front);
      var s' := RunOne(Reasoning, front, step);
      if ResultsExact(Run(Reasoning, front)) && Enabled(Run(Reasoning, front), step) {
        StrayExactly(Reasoning, Run(Reasoning, front), step);
      }
      assert forall k | 0 <= k < n ::
        Stray(Reasoning, Run(Reasoning, front[..k]), front[k]) <==> Stray(Reasoning, Run(Reasoning, steps[..k]), steps[k]);
    }
  }

  lemma NoResults()
    ensures ResultsExact(Run(Reasoning, []))
  {
  }

  /** Without timeliness exclusion fails: a stale failure report puts back a job another worker is
      still working on, and a third worker is given it. */
  lemma StaleReportBreaksExclusion(kind: Kind) returns (steps: seq<Step>)
    ensures var s := Run(kind, steps);
            |s.grants| == 3 && s.grants[1].job == s.grants[2].job && Live(s, 1) && Live(s, 2)
  {
    var s1 := RunOne(kind, [], Enqueue(0));
    var s2 := RunOne(kind, [Enqueue(0)], TakeLease(1, 0, {}));
    steps := [Enqueue(0), TakeLease(1, 0, {})];
    var s3 := RunOne(kind, steps, Tick(LEASE + SECOND));
    steps := steps + [Tick(LEASE + SECOND)];
    var s4 := RunOne(kind, steps, TakeLease(2, 0, {}));
    steps := steps + [TakeLease(2, 0, {})];
    var s5 := RunOne(kind, steps, Report(1, TimedOut));
    steps := steps + [Report(1, TimedOut)];
    assert Power2(2) == 4;
    assert s5.queue.jobs[0] == Job(Pending, 2, s5.now + 4 * SECOND, None, Some("provider_timeout"));
    var s6 := RunOne(kind, steps, Tick(4 * SECOND));
    steps := steps + [Tick(4 * SECOND)];
    var s7 := RunOne(kind, steps, TakeLease(3, 0, {}));
    steps := steps + [TakeLease(3, 0, {})];
  }

  /** A job whose workers always die before reporting: its lease count only grows. */
  lemma {:induction false} CrashLoop(kind: Kind, n: nat) returns (steps: seq<Step>)
    requires n <= MAX_ATTEMPTS
    ensures var s := Run(kind, steps);
            && s.holding == map[]
            && s.queue.jobs.Keys == {0, 1}
            && s.queue.jobs[0].attempts == n && s.queue.jobs[0].availableAt == 0 && Eligible(s.queue.jobs[0], s.now)
            && s.queue.jobs[1] == Job(Pending, 0, 0, None, None)
  {
    if n == 0 {
      var s1 := RunOne(kind, [], Enqueue(0));
      var s2 := RunOne(kind, [Enqueue(0)], Enqueue(1));
      steps := [Enqueue(0), Enqueue(1)];
      assert [Enqueue(0)] + [Enqueue(1)] == steps && [] + [Enqueue(0)] == [Enqueue(0)];
    } else {
      steps := CrashLoop(kind, n - 1);
      var s := Run(kind, steps);
      assert IsCandidate(s.queue, s.now, {}, 0);
      var s1 := RunOne(kind, steps, TakeLease(1, 0, {}));
      steps := steps + [TakeLease(1, 0, {})];
      assert s1.holding == map[1 := |s.grants|] && s1.queue.jobs[0].leasedUntil == Some(s.now + LEASE);
      var s2 := RunOne(kind, steps, Crash(1));
      steps := steps + [Crash(1)];
      assert s2.holding == map[];
      var s3 := RunOne(kind, steps, Tick(LEASE + 1));
      steps := steps + [Tick(LEASE + 1)];
    }
  }

  // ---- Exhausted rows at the head of the queue -----------------------------------------------------------------

  /** A row is the one a lease call picks if and only if it is unlocked and eligible, and every eligible
      row before it is locked. */
  lemma PickedExactly(q: Queue, now: nat, locked: set<JobId>, id: JobId)
    ensures IsCandidate(q, now, locked, id) <==>
              && id in q.jobs && id !in locked && Eligible(q.jobs[id], now)
              && forall other | other in q.jobs && Eligible(q.jobs[other], now) && Before(q.jobs, other, id) :: other in locked
  {
    hide Eligible;
    if id in q.jobs {
      forall other | other in q.jobs && other != id
        ensures Before(q.jobs, other, id) <==> !Before(q.jobs, id, other)
      {
      }
    }
  }

  ghost predicate Offered(q: Queue, now: nat, locked: set<JobId>, id: JobId) {
    id in q.jobs && id !in locked && Eligible(q.jobs[id], now)
  }

  /** Among offered rows there is a first. */
  lemma {:induction false} FirstOffered(q: Queue, now: nat, locked: set<JobId>, among: set<JobId>) returns (first: JobId)
    requires among != {} && forall id | id in among :: Offered(q, now, locked, id)
    ensures first in among && first in q.jobs
    ensures forall id | id in among && id != first :: id in q.jobs && Before(q.jobs, first, id)
  {
    hide Eligible;
    assert forall id | id in among :: Offered(q, now, locked, id) && id in q.jobs;
    var x :| x in among;
    if among == {x} {
      first := x;
    } else {
      var rest := among - {x};
      assert among == rest + {x};
      var y := FirstOffered(q, now, locked, rest);
      first := if Before(q.jobs, x, y) then x else y;
    }
  }

  lemma PickedExists(q: Queue, now: nat, locked: set<JobId>, id: JobId) returns (first: JobId)
    requires Offered(q, now, locked, id)
    ensures IsCandidate(q, now, locked, first)
  {
    hide Eligible;
    var among := set k | k in q.jobs && Offered(q, now, locked, k);
    assert id in among;
    first := FirstOffered(q, now, locked, among);
    assert Offered(q, now, locked, first);
    forall other | other in q.jobs && other !in locked && other != first && Eligible(q.jobs[other], now)
      ensures Before(q.jobs, first, other)
    {
      assert other in among;
    }
  }

  /** In every reachable state a lease call finds a row unless none is offered, and it raises if and only
      if the row it picks, the first one offered, has been leased a hundred times. */
  lemma LeaseCallExactly(kind: Kind, steps: seq<Step>, locked: set<JobId>)
    ensures var s := Run(kind, steps);
            && ((exists id :: IsCandidate(s.queue, s.now, locked, id)) <==> (exists id :: Offered(s.queue, s.now, locked, id)))
            && (forall id | IsCandidate(s.queue, s.now, locked, id) ::
                  LeaseRaises(s.queue, id) <==> s.queue.jobs[id].attempts == MAX_ATTEMPTS)
  {
    hide Run, Eligible, Before;
    var s := Run(kind, steps);
    RunSound(kind, steps);
    if id :| Offered(s.queue, s.now, locked, id) {
      var first := PickedExists(s.queue, s.now, locked, id);
    }
    forall id | IsCandidate(s.queue, s.now, locked, id)
      ensures Offered(s.queue, s.now, locked, id)
    {
    }
    forall id | id in s.queue.jobs
      ensures s.queue.jobs[id].attempts <= MAX_ATTEMPTS
    {
      assert JobSound(kind, s, id);
    }
  }

  /** Leased as often as the check allows. */
  predicate Exhausted(s: State, id: JobId) {
    id in s.queue.jobs && s.queue.jobs[id].status == Leased && s.queue.jobs[id].attempts == MAX_ATTEMPTS
  }

  /** Some worker has a lease of the job it may still report. */
  ghost predicate Outstanding(s: State, id: JobId) {
    exists w | w in s.holding :: s.holding[w] < |s.grants| && s.grants[s.holding[w]].job == id
  }

  lemma ExhaustedStep(kind: Kind, s: State, step: Step, id: JobId)
    requires Sound(kind, s) && Enabled(s, step) && Exhausted(s, id) && !Outstanding(s, id)
    ensures var s' := Next(kind, s, step);
            Exhausted(s', id) && !Outstanding(s', id) && s'.queue.jobs[id] == s.queue.jobs[id] && s.now <= s'.now
  {
    hide Reported, JobSound, IsCandidate;
    match step {
      case Report(w, response) =>
        var g := s.holding[w];
        assert s.grants[g] in s.grants && s.grants[g].job != id;
        ReportEffect(kind, s, s.grants[g].job, response);
      case TakeLease(_, _, _) =>
        LeasedExists(s, step);
      case Enqueue(_) =>
      case Tick(_) =>
      case Crash(_) =>
    }
  }

  lemma {:induction false} ExhaustedStays(kind: Kind, steps: seq<Step>, more: seq<Step>, id: JobId)
    requires Exhausted(Run(kind, steps), id) && !Outstanding(Run(kind, steps), id)
    ensures var s, s' := Run(kind, steps), Run(kind, steps + more);
            Exhausted(s', id) && !Outstanding(s', id) && s'.queue.jobs[id] == s.queue.jobs[id] && s.now <= s'.now
  {
    hide Run, Enabled, Next, Sound, Outstanding;
    if more == [] {
      assert steps + more == steps;
    } else {
      var front, step := more[..|more| - 1], more[|more| - 1];
      ExhaustedStays(kind, steps, front, id);
      RunSound(kind, steps + front);
      assert steps + more == (steps + front) + [step];
      var s' := RunOne(kind, steps + front, step);
      if Enabled(Run(kind, steps + front), step) {
        ExhaustedStep(kind, Run(kind, steps + front), step, id);
      }
    }
  }

  /** An exhausted row can ever change again if and only if a worker still has a lease of it to report. */
  lemma ExhaustedExactly(kind: Kind, steps: seq<Step>, id: JobId)
    requires Exhausted(Run(kind, steps), id)
    ensures (exists more ::
               var s' := Run(kind, steps + more); id !in s'.queue.jobs || s'.queue.jobs[id] != Run(kind, steps).queue.jobs[id])
            <==> Outstanding(Run(kind, steps), id)
  {
    hide Run, Outstanding;
    var s := Run(kind, steps);
    if Outstanding(s, id) {
      var w := Reporter(s, id);
      var step := Report(w, TimedOut);
      var s' := RunOne(kind, steps, step);
      assert s'.queue.jobs[id].status == Failed;
      assert Run(kind, steps + [step]).queue.jobs[id] != s.queue.jobs[id];
    } else {
      forall more
        ensures var s' := Run(kind, steps + more); id in s'.queue.jobs && s'.queue.jobs[id] == s.queue.jobs[id]
      {
        ExhaustedStays(kind, steps, more, id);
      }
    }
  }

  lemma Reporter(s: State, id: JobId) returns (w: Worker)
    requires Outstanding(s, id)
    ensures w in s.holding && s.holding[w] < |s.grants| && s.grants[s.holding[w]].job == id
  {
    w :| w in s.holding && s.holding[w] < |s.grants| && s.grants[s.holding[w]].job == id;
  }

  /** From then on, for good: a lease call that finds the expired row unlocked and nothing offered before
      it raises and changes nothing, and a job behind it is given out only while the row is locked. */
  lemma BehindExhausted(kind: Kind, steps: seq<Step>, more: seq<Step>, id: JobId, w: Worker, k: JobId, locked: set<JobId>)
    requires Exhausted(Run(kind, steps), id) && !Outstanding(Run(kind, steps), id)
    requires Eligible(Run(kind, steps).queue.jobs[id], Run(kind, steps).now)
    ensures var s := Run(kind, steps + more);
            && id in s.queue.jobs && LeaseRaises(s.queue, id)
            && (Enabled(s, TakeLease(w, id, locked)) ==> Next(kind, s, TakeLease(w, id, locked)) == s)
            && (k in s.queue.jobs && Before(s.queue.jobs, id, k) && Enabled(s, TakeLease(w, k, locked)) ==> id in locked)
  {
    hide Run, Outstanding;
    ExhaustedStays(kind, steps, more, id);
    var s := Run(kind, steps + more);
    PickedExactly(s.queue, s.now, locked, k);
  }

  /** Such rows come about: a job that always kills its worker ends up at the head of the queue.  Every
      call that finds it unlocked picks it and raises; the job behind it, available from the start, is
      leasable exactly by a call that finds it locked, which is while another call is failing on it. */
  lemma PoisonedHeadBlocks(kind: Kind, w: Worker) returns (steps: seq<Step>)
    ensures var s := Run(kind, steps);
            && Exhausted(s, 0) && !Outstanding(s, 0) && Eligible(s.queue.jobs[0], s.now)
            && 1 in s.queue.jobs && s.queue.jobs[1].attempts == 0 && Eligible(s.queue.jobs[1], s.now)
            && (forall locked: set<JobId> | 0 !in locked ::
                  Enabled(s, TakeLease(w, 0, locked)) && Next(kind, s, TakeLease(w, 0, locked)) == s)
            && (forall locked: set<JobId> :: Enabled(s, TakeLease(w, 1, locked)) <==> 0 in locked && 1 !in locked)
  {
    hide Run;
    steps := CrashLoop(kind, MAX_ATTEMPTS);
    var s := Run(kind, steps);
    assert Before(s.queue.jobs, 0, 1) && !Before(s.queue.jobs, 1, 0);
    assert forall id | id in s.queue.jobs :: id == 0 || id == 1;
    RunClocked(kind, steps);
    if s.queue.jobs[0].status == Pending {
      PendingHasAttempts(s, 0);
    }
  }

  // ---- The rows in place -------------------------------------------------------------------------------------

  /** Waiting and available, or leased by somebody whose lease is over. */
  predicate MayBeLeased(job: Job, now: nat) {
    if job.status == Pending then job.availableAt <= now
    else job.status == Leased && job.leasedUntil.Some? && job.leasedUntil.value < now
  }

  class JobTable {
    const kind: Kind
    var jobs: map<JobId, Job>
    var results: map<JobId, Json>

    ghost function Rows(): Queue
      reads this
    {
      Queue(jobs, results)
    }

    constructor (kind: Kind)
      ensures this.kind == kind && Rows() == START.queue
    {
      this.kind := kind;
      jobs, results := map[], map[];
    }

    /** `Err` is the check violation, `Ok(None)` an empty queue. */
    method Lease(now: nat, locked: set<JobId>) returns (leased: Result<Option<JobId>, string>)
      modifies this
      ensures leased == Ok(None) ==>
                Rows() == old(Rows()) && forall id :: !IsCandidate(old(Rows()), now, locked, id)
      ensures leased.Ok? && leased.value.Some? ==>
                var id := leased.value.value;
                && id in old(jobs) && id !in locked && MayBeLeased(old(jobs)[id], now) && old(jobs)[id].attempts < 100
                && (forall other | other in old(jobs) && other !in locked && MayBeLeased(old(jobs)[other], now) && other != id ::
                      old(jobs)[id].availableAt < old(jobs)[other].availableAt
                      || (old(jobs)[id].availableAt == old(jobs)[other].availableAt && id < other))
                && jobs == old(jobs)[id := Job(Leased, old(jobs)[id].attempts + 1, old(jobs)[id].availableAt,
                                               Some(now + 30_000_000), old(jobs)[id].failureCode)]
                && results == old(results)
      ensures leased.Ok? && leased.value.Some? ==>
                IsCandidate(old(Rows()), now, locked, leased.value.value)
                && !LeaseRaises(old(Rows()), leased.value.value)
                && Rows() == LeaseJob(old(Rows()), now, leased.value.value)
      ensures leased.Err? ==>
                Rows() == old(Rows()) && exists id :: IsCandidate(old(Rows()), now, locked, id) && old(jobs)[id].attempts >= 100
    {
      var best: Option<JobId> := None;
      var pending := jobs.Keys;
      while pending != {}
        invariant pending <= jobs.Keys && Rows() == old(Rows())
        invariant best.Some? ==> best.value in jobs && best.value !in locked && Eligible(jobs[best.value], now)
        invariant forall id | id in jobs && id !in pending && id !in locked && Eligible(jobs[id], now) ::
                    best.Some? && (id == best.value || Before(jobs, best.value, id))
        decreases pending
      {
        var id :| id in pending;
        pending := pending - {id};
        if id !in locked && Eligible(jobs[id], now) && (best.None? || Before(jobs, id, best.value)) {
          best := Some(id);
        }
      }
      if best.None? {
        return Ok(None);
      }
      var id := best.value;
      assert IsCandidate(Rows(), now, locked, id);
      var job := jobs[id];
      if job.attempts + 1 > MAX_ATTEMPTS {
        return Err("attempt_count check");
      }
      jobs := jobs[id := job.(status := Leased, leasedUntil := Some(now + LEASE), attempts := job.attempts + 1)];
      leased := Ok(Some(id));
    }

    method Complete(id: JobId, result: Json) returns (found: bool)
      modifies this
      ensures results == if kind == Reasoning && id in old(jobs) && result.Object? then old(results)[id := result]
                         else old(results)
      ensures found <==> id in old(jobs) && old(jobs)[id].status == Leased && (kind == Reasoning ==> result.Object?)
      ensures jobs == if found then old(jobs)[id := Job(Done, old(jobs)[id].attempts, old(jobs)[id].availableAt, None, None)]
                      else old(jobs)
      ensures (Rows(), found) == CompleteJob(kind, old(Rows()), id, result)
    {
      if id !in jobs || (kind == Reasoning && !result.Object?) {
        return false;
      }
      if kind == Reasoning {
        results := results[id := result];
      }
      found := jobs[id].status == Leased;
      if found {
        jobs := jobs[id := jobs[id].(status := Done, leasedUntil := None, failureCode := None)];
      }
    }

    method Fail(now: nat, id: JobId, code: string) returns (found: bool)
      modifies this
      ensures results == old(results) && (found <==> id in old(jobs) && old(jobs)[id].status == Leased)
      ensures !found ==> jobs == old(jobs)
      ensures found ==>
                var job := old(jobs)[id];
                jobs == old(jobs)[id := Job(if job.attempts < 10 then Pending else Failed, job.attempts,
                                            now + Backoff(job.attempts), None,
                                            Some(code[..if |code| < 100 then |code| else 100]))]
      ensures (Rows(), found) == FailJob(old(Rows()), now, id, code)
    {
      assert code[..|code|] == code;
      found := id in jobs && jobs[id].status == Leased;
      if found {
        var job := jobs[id];
        var status := if job.attempts >= RETRY_LIMIT then Failed else Pending;
        jobs := jobs[id := job.(status := status, availableAt := now + Backoff(job.attempts), leasedUntil := None,
                                failureCode := Some(if |code| > 100 then code[..100] else code))];
      }
    }
  }
}
