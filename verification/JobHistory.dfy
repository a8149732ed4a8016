/** Whose result and whose failure a job's row shows
    (deploy/fleet/postgres/002_cloud_workloads.sql, crates/syspilot-cloud/src/bin/reasoning_worker.rs). */
module JobHistory {
  import opened Prelude
  import opened Leases

  // ---- What a response means ----------------------------------------------------------------------------------

  /** The result a response carries: an object in the body of a 2xx answer. */
  function ResultIn(response: Response): Option<Json> {
    if response.Http? && 200 <= response.status < 300 && response.body.Some? && response.body.value.Object?
    then response.body else None
  }

  /** A response is a success exactly when it carries a result; each failure code says which kind of
      response it was. */
  lemma ResponseExactly(response: Response)
    ensures var r := ClassifyResponse(response);
            && (r.Ok? <==> ResultIn(response).Some?) && (r.Ok? ==> Some(r.value) == ResultIn(response))
            && (r == Err("provider_timeout") <==> response.TimedOut?)
            && (r == Err("transport_failure") <==> response.TransportFailure?)
            && (r == Err("redirect_rejected") <==> response.Http? && response.status / 100 == 3)
            && (r == Err("rate_limited") <==> response.Http? && response.status == 429)
            && (r == Err("provider_unavailable") <==> response.Http? && response.status / 100 == 5)
            && (r == Err("invalid_response") <==> response.Http? && response.status / 100 == 2 && ResultIn(response).None?)
            && (r == Err("provider_rejected") <==>
                  response.Http? && response.status / 100 !in {2, 3, 5} && response.status != 429)
  {
    assert "provider_timeout"[0] == 'p' && |"provider_timeout"| == 16 && |"provider_rejected"| == 17;
    assert |"transport_failure"| == 17 && |"redirect_rejected"| == 17 && |"rate_limited"| == 12;
    assert "transport_failure"[0] == 't' && "redirect_rejected"[0] == 'r' && "provider_rejected"[0] == 'p';
    assert |"provider_unavailable"| == 20 && |"invalid_response"| == 16 && "invalid_response"[0] == 'i';
  }

  // ---- Runs -------------------------------------------------------------------------------------------------

  /** The step is a report about the job. */
  predicate Reports(s: State, step: Step, id: JobId) {
    Enabled(s, step) && step.Report? && s.grants[s.holding[step.worker]].job == id
  }

  /** The last result any worker reported for the job, late or not. */
  function LastResult(kind: Kind, steps: seq<Step>, id: JobId): Option<Json> {
    if steps == [] then None else
    var front, step := steps[..|steps| - 1], steps[|steps| - 1];
    if Reports(Run(kind, front), step, id) && ResultIn(step.response).Some? then ResultIn(step.response)
    else LastResult(kind, front, id)
  }

  /** The code of the last report that found the job leased; none after a success. */
  function LastCode(kind: Kind, steps: seq<Step>, id: JobId): Option<string> {
    if steps == [] then None else
    var front, step := steps[..|steps| - 1], steps[|steps| - 1];
    var s := Run(kind, front);
    if Reports(s, step, id) && id in s.queue.jobs && s.queue.jobs[id].status == Leased then
      (match ClassifyResponse(step.response)
       case Ok(_) => None
       case Err(code) => Some(code[..if |code| < 100 then |code| else 100]))
    else LastCode(kind, front, id)
  }

  function ResultOf(q: Queue, id: JobId): Option<Json> {
    if id in q.results then Some(q.results[id]) else None
  }

  function CodeOf(q: Queue, id: JobId): Option<string> {
    if id in q.jobs then q.jobs[id].failureCode else None
  }

  /** Only a report about the job changes its result or its failure code. */
  lemma OneStep(kind: Kind, s: State, step: Step, id: JobId)
    requires Sound(kind, s) && Enabled(s, step)
    ensures var q, q' := s.queue, Next(kind, s, step).queue;
            var report := Reports(s, step, id);
            && ResultOf(q', id)
               == (if kind == Reasoning && report && ResultIn(step.response).Some? then ResultIn(step.response)
                   else ResultOf(q, id))
            && CodeOf(q', id)
               == if report && id in q.jobs && q.jobs[id].status == Leased then
                    match ClassifyResponse(step.response)
                    case Ok(_) => None
                    case Err(code) => Some(code[..if |code| < 100 then |code| else 100])
                  else CodeOf(q, id)
  {
    hide Backoff, JobSound, ClassifyResponse, IsCandidate;
    if step.Report? {
      ResponseExactly(step.response);
      if ClassifyResponse(step.response).Err? {
        var code := ClassifyResponse(step.response).error;
        assert code[..|code|] == code;
      }
      assert s.grants[s.holding[step.worker]] in s.grants;
    }
    if step.TakeLease? {
      PickedExactly(s.queue, s.now, step.locked, step.id);
    }
  }

  /** In every run the stored result of a reasoning job is the last one reported for it, by whichever worker
      and however late, and notification jobs have none. */
  lemma {:induction false} ResultIsLastReported(kind: Kind, steps: seq<Step>, id: JobId)
    ensures ResultOf(Run(kind, steps).queue, id) == if kind == Reasoning then LastResult(kind, steps, id) else None
  {
    hide Enabled, Next, Sound, ResultIn;
    if steps != [] {
      var front, step := steps[..|steps| - 1], steps[|steps| - 1];
      ResultIsLastReported(kind, front, id);
      RunSound(kind, front);
      if Enabled(Run(kind, front), step) {
        OneStep(kind, Run(kind, front), step, id);
      }
    }
  }

  /** In every run the failure code of a job is that of the last report that found it leased, cut to a
      hundred characters, and is cleared by a success. */
  lemma {:induction false} CodeIsLastReported(kind: Kind, steps: seq<Step>, id: JobId)
    ensures CodeOf(Run(kind, steps).queue, id) == LastCode(kind, steps, id)
  {
    hide Enabled, Next, Sound, ClassifyResponse;
    if steps != [] {
      var front, step := steps[..|steps| - 1], steps[|steps| - 1];
      CodeIsLastReported(kind, front, id);
      RunSound(kind, front);
      if Enabled(Run(kind, front), step) {
        OneStep(kind, Run(kind, front), step, id);
      }
    }
  }
}
