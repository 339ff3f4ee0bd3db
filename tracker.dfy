/** The completion tracker: after submission, poll the queue (until the job is
    first seen absent from it) and the last-build status, until the build
    succeeds, fails or is aborted. Every HTTP answer is an input, one `Poll`
    per iteration; the deadline is the number of polls available. */
module Tracker {
  import opened Matching
  import opened Queue

  datatype Option<T> = None | Some(value: T)

  /** The fields of `lastBuild/api/json` that the tracker reads; `result` is
      null (None) while the build runs. */
  datatype BuildStatus = BuildStatus(
    fullDisplayName: string,
    timestamp: int,
    result: Option<string>,
    estimatedDuration: int,
    parameters: seq<Param>)

  /** One HTTP fetch: its decoded body, or the error it threw. */
  datatype Fetch<T> = Fetched(body: T) | FetchError(message: string)

  /** The server's answers in one iteration, to the queue fetch and to the
      status fetch; the tracker reads only the ones it asks for. */
  datatype Poll = Poll(queue: Fetch<QueueSnapshot>, status: Fetch<BuildStatus>)

  /** The job as submitted: its name, its parameter entries and the time of
      submission, in the server's timestamp unit. */
  datatype JobRequest = JobRequest(jobName: string, parameters: Expected, submittedAt: int)

  /** The loop's two variables: `checkQueue` and `isJobWaitingInQueue`. */
  datatype TrackerState = TrackerState(checkQueue: bool, waitingInQueue: bool)

  /** What a non-final iteration reports. */
  datatype Progress = InQueue | NotStartedYet | Running(estimatedDuration: int)

  /** How the loop ends: the SUCCESS break, the FAILURE/ABORTED throw, a
      failed fetch, or (only in this model) running out of polls. */
  datatype Verdict =
    | Succeeded(displayName: string)
    | JobFailed(message: string)
    | FetchFailed(message: string)
    | DeadlineReached

  datatype Outcome = Continue(progress: Progress) | Stop(verdict: Verdict)

  /** The whole loop: how it ended and what it reported on the way. */
  datatype Execution = Execution(verdict: Verdict, log: seq<Progress>)

  const Success := "SUCCESS"
  const Failure := "FAILURE"
  const Aborted := "ABORTED"

  function Initial(): TrackerState {
    TrackerState(true, false)
  }

  /** Once the queue latch is closed, the last queue check said "absent". */
  predicate Valid(s: TrackerState) {
    !s.checkQueue ==> !s.waitingInQueue
  }

  function FailureMessage(displayName: string): string {
    "Failed job " + displayName
  }

  /** A status older than submission whose parameters match belongs to an
      earlier build. */
  predicate IsStale(req: JobRequest, d: BuildStatus) {
    d.timestamp < req.submittedAt && AllParamsPresent(d.parameters, req.parameters)
  }

  /** The `if` chain on a fetched status, tested in the source's order. */
  function Classify(req: JobRequest, d: BuildStatus): (o: Outcome)
    ensures o.Stop? ==> !IsStale(req, d)
    ensures o.Stop? ==> o.verdict == Succeeded(d.fullDisplayName) || o.verdict == JobFailed(FailureMessage(d.fullDisplayName))
  {
    if IsStale(req, d) then Continue(NotStartedYet)
    else if d.result == Some(Success) then Stop(Succeeded(d.fullDisplayName))
    else if d.result == Some(Failure) || d.result == Some(Aborted) then Stop(JobFailed(FailureMessage(d.fullDisplayName)))
    else Continue(Running(d.estimatedDuration))
  }

  /** One iteration of the loop: the new state and what it reports or how it
      ends. */
  function Step(req: JobRequest, s: TrackerState, poll: Poll): (r: (TrackerState, Outcome))
    ensures Valid(s) ==> Valid(r.0)
    ensures !s.checkQueue ==> !r.0.checkQueue
    ensures r.1 != Stop(DeadlineReached)
    ensures r.1 == Continue(InQueue) ==> r.0 == TrackerState(s.checkQueue, true)
  {
    if s.checkQueue && poll.queue.FetchError? then (s, Stop(FetchFailed(poll.queue.message)))
    else
      var waiting := if s.checkQueue then IsJobInQueue(poll.queue.body, req.jobName, req.parameters) else s.waitingInQueue;
      if waiting then (TrackerState(s.checkQueue, true), Continue(InQueue))
      else
        var s' := TrackerState(false, false);
        match poll.status
        case FetchError(m) => (s', Stop(FetchFailed(m)))
        case Fetched(d) => (s', Classify(req, d))
  }

  /** The loop over the available polls, stopping at the first final step. */
  function Run(req: JobRequest, s: TrackerState, polls: seq<Poll>): (e: Execution)
    ensures |e.log| <= |polls|
    ensures e.verdict == DeadlineReached <==> |e.log| == |polls|
    decreases |polls|
  {
    if polls == [] then Execution(DeadlineReached, [])
    else
      var (s', out) := Step(req, s, polls[0]);
      match out
      case Stop(v) => Execution(v, [])
      case Continue(p) =>
        var rest := Run(req, s', polls[1..]);
        Execution(rest.verdict, [p] + rest.log)
  }

  /** A run that had already reported `log` before it continued as `rest`. */
  function After(log: seq<Progress>, rest: Execution): Execution {
    Execution(rest.verdict, log + rest.log)
  }

  lemma RunStops(req: JobRequest, s: TrackerState, polls: seq<Poll>, v: Verdict)
    requires polls != [] && Step(req, s, polls[0]).1 == Stop(v)
    ensures Run(req, s, polls) == Execution(v, [])
  {
  }

  lemma RunContinues(req: JobRequest, s: TrackerState, polls: seq<Poll>, p: Progress)
    requires polls != [] && Step(req, s, polls[0]).1 == Continue(p)
    ensures Run(req, s, polls) == After([p], Run(req, Step(req, s, polls[0]).0, polls[1..]))
  {
  }

  /** The body of the `while (true)` loop: consult the queue while the latch
      is open, then, unless the job is waiting in the queue, close the latch
      and classify the last-build status. */
  method PollOnce(req: JobRequest, checkQueue: bool, isJobWaitingInQueue: bool, poll: Poll)
    returns (checkQueue': bool, isJobWaitingInQueue': bool, outcome: Outcome)
    ensures (TrackerState(checkQueue', isJobWaitingInQueue'), outcome) ==
            Step(req, TrackerState(checkQueue, isJobWaitingInQueue), poll)
  {
    checkQueue', isJobWaitingInQueue' := checkQueue, isJobWaitingInQueue;
    if checkQueue' {
      match poll.queue
      case FetchError(m) =>
        return checkQueue', isJobWaitingInQueue', Stop(FetchFailed(m));
      case Fetched(queueData) =>
        isJobWaitingInQueue' := IsJobInQueue(queueData, req.jobName, req.parameters);
    }
    if !isJobWaitingInQueue' {
      checkQueue' := false;
      match poll.status
      case FetchError(m) =>
        outcome := Stop(FetchFailed(m));
      case Fetched(data) =>
        var notStarted := false;
        if data.timestamp < req.submittedAt {
          notStarted := IsAllJobParamsPresent(data.parameters, req.parameters);
        }
        if notStarted {
          outcome := Continue(NotStartedYet);
        } else if data.result == Some(Success) {
          outcome := Stop(Succeeded(data.fullDisplayName));
        } else if data.result == Some(Failure) || data.result == Some(Aborted) {
          outcome := Stop(JobFailed(FailureMessage(data.fullDisplayName)));
        } else {
          outcome := Continue(Running(data.estimatedDuration));
        }
    } else {
      outcome := Continue(InQueue);
    }
  }

  /** `waitJenkinsJob`: the polling loop over its two local variables, one
      poll per iteration, ending exactly as the run of `Step` ends. */
  method WaitJenkinsJob(req: JobRequest, polls: seq<Poll>) returns (verdict: Verdict, log: seq<Progress>)
    ensures Execution(verdict, log) == Run(req, Initial(), polls)
  {
    var checkQueue := true;
    var isJobWaitingInQueue := false;
    log := [];
    var i := 0;
    while i < |polls|
      invariant 0 <= i <= |polls|
      invariant Run(req, Initial(), polls) == After(log, Run(req, TrackerState(checkQueue, isJobWaitingInQueue), polls[i..]))
    {
      ghost var s := TrackerState(checkQueue, isJobWaitingInQueue);
      assert polls[i..][0] == polls[i] && polls[i..][1..] == polls[i + 1..];
      var outcome;
      checkQueue, isJobWaitingInQueue, outcome := PollOnce(req, checkQueue, isJobWaitingInQueue, polls[i]);
      match outcome {
        case Stop(v) =>
          RunStops(req, s, polls[i..], v);
          return v, log;
        case Continue(progress) =>
          RunContinues(req, s, polls[i..], progress);
          assert log + ([progress] + Run(req, TrackerState(checkQueue, isJobWaitingInQueue), polls[i + 1..]).log)
              == (log + [progress]) + Run(req, TrackerState(checkQueue, isJobWaitingInQueue), polls[i + 1..]).log;
          log := log + [progress];
      }
      i := i + 1;
    }
    return DeadlineReached, log;
  }

  // ---- The order of the status classification ----

  /** The four branches of the classification, as conditions on the status:
      a stale matching status is "not started"; otherwise SUCCESS succeeds,
      FAILURE or ABORTED fails naming the build, and anything else runs on. */
  lemma ClassificationOrder(req: JobRequest, d: BuildStatus)
    ensures Classify(req, d) == Continue(NotStartedYet) <==> IsStale(req, d)
    ensures Classify(req, d) == Stop(Succeeded(d.fullDisplayName)) <==>
            !IsStale(req, d) && d.result == Some(Success)
    ensures Classify(req, d) == Stop(JobFailed(FailureMessage(d.fullDisplayName))) <==>
            !IsStale(req, d) && (d.result == Some(Failure) || d.result == Some(Aborted))
    ensures Classify(req, d).Continue? <==>
            IsStale(req, d) || d.result !in {Some(Success), Some(Failure), Some(Aborted)}
    ensures Classify(req, d).Stop? ==> Classify(req, d).verdict in {Succeeded(d.fullDisplayName), JobFailed(FailureMessage(d.fullDisplayName))}
  {
  }

  /** A stale status with matching parameters is "not started" whatever its
      result says, even SUCCESS or FAILURE. */
  lemma StaleStatusIgnoresResult(req: JobRequest, d: BuildStatus, result: Option<string>)
    requires IsStale(req, d)
    ensures Classify(req, d.(result := result)) == Continue(NotStartedYet)
  {
  }

  /** A status that is not stale (newer than submission, from the submission
      instant itself, or older with non-matching parameters) is judged by its
      result alone. */
  lemma NonStaleJudgedByResult(req: JobRequest, d: BuildStatus)
    requires !IsStale(req, d)
    ensures Classify(req, d) ==
            if d.result == Some(Success) then Stop(Succeeded(d.fullDisplayName))
            else if d.result == Some(Failure) || d.result == Some(Aborted) then Stop(JobFailed(FailureMessage(d.fullDisplayName)))
            else Continue(Running(d.estimatedDuration))
  {
  }

  // ---- The queue latch ----

  /** While the job is in the queue, the status is not consulted: the step
      reports "in queue", keeps the latch open and ignores the status answer. */
  lemma InQueueSkipsStatus(req: JobRequest, s: TrackerState, q: QueueSnapshot, st1: Fetch<BuildStatus>, st2: Fetch<BuildStatus>)
    requires s.checkQueue && IsJobInQueue(q, req.jobName, req.parameters)
    ensures Step(req, s, Poll(Fetched(q), st1)) == (TrackerState(true, true), Continue(InQueue))
    ensures Step(req, s, Poll(Fetched(q), st1)) == Step(req, s, Poll(Fetched(q), st2))
  {
  }

  /** The first time the job is found absent, the latch closes and the status
      decides the step. */
  lemma LatchClosesWhenAbsent(req: JobRequest, s: TrackerState, q: QueueSnapshot, st: Fetch<BuildStatus>)
    requires s.checkQueue && !IsJobInQueue(q, req.jobName, req.parameters)
    ensures Step(req, s, Poll(Fetched(q), st)).0 == TrackerState(false, false)
    ensures Step(req, s, Poll(Fetched(q), st)).1 ==
            match st
            case FetchError(m) => Stop(FetchFailed(m))
            case Fetched(d) => Classify(req, d)
  {
  }

  /** Once closed, the latch stays closed, and the queue answer (even a failed
      fetch) has no influence on a step. */
  lemma LatchedIgnoresQueue(req: JobRequest, s: TrackerState, q1: Fetch<QueueSnapshot>, q2: Fetch<QueueSnapshot>, st: Fetch<BuildStatus>)
    requires Valid(s) && !s.checkQueue
    ensures Step(req, s, Poll(q1, st)) == Step(req, s, Poll(q2, st))
    ensures Step(req, s, Poll(q1, st)).0 == s
  {
  }

  /** Over a whole run: after the latch closes, the queue is never consulted
      again, so two poll sequences with the same status answers give the
      same run. */
  lemma {:induction false} RunIgnoresQueueOnceLatched(req: JobRequest, s: TrackerState, p1: seq<Poll>, p2: seq<Poll>)
    requires Valid(s) && !s.checkQueue
    requires |p1| == |p2|
    requires forall i :: 0 <= i < |p1| ==> p1[i].status == p2[i].status
    ensures Run(req, s, p1) == Run(req, s, p2)
    decreases |p1|
  {
    if p1 != [] {
      LatchedIgnoresQueue(req, s, p1[0].queue, p2[0].queue, p1[0].status);
      assert p1[0] == Poll(p1[0].queue, p1[0].status) && p2[0] == Poll(p2[0].queue, p1[0].status);
      var s' := Step(req, s, p1[0]).0;
      RunIgnoresQueueOnceLatched(req, s', p1[1..], p2[1..]);
    }
  }

  /** The first iteration always fetches the queue: if that fetch fails, the
      loop ends at once with its error, before any status is read. */
  lemma FirstPollFetchesQueue(req: JobRequest, polls: seq<Poll>, m: string)
    requires polls != [] && polls[0].queue == FetchError(m)
    ensures Run(req, Initial(), polls) == Execution(FetchFailed(m), [])
  {
  }

  /** A job that stays in the queue keeps the tracker waiting: every poll
      reports "in queue" until the polls run out. */
  lemma {:induction false} QueuedForever(req: JobRequest, s: TrackerState, polls: seq<Poll>)
    requires s.checkQueue
    requires forall i :: 0 <= i < |polls| ==>
               polls[i].queue.Fetched? && IsJobInQueue(polls[i].queue.body, req.jobName, req.parameters)
    ensures Run(req, s, polls) == Execution(DeadlineReached, seq(|polls|, _ => InQueue))
    decreases |polls|
  {
    if polls != [] {
      QueuedForever(req, TrackerState(true, true), polls[1..]);
      assert seq(|polls|, _ => InQueue) == [InQueue] + seq(|polls| - 1, _ => InQueue);
    }
  }

  // ---- Exits ----

  /** Whatever the answers the loop does not read, a SUCCESS break or a
      FAILURE/ABORTED throw is decided by the poll that ended the loop, the
      one after the logged iterations: its status was fetched, was not stale,
      and carried that result and display name. */
  lemma {:induction false} ExitDecidedByLastPoll(req: JobRequest, s: TrackerState, polls: seq<Poll>)
    ensures
      var e := Run(req, s, polls);
      e.verdict.Succeeded? ==>
        |e.log| < |polls| && polls[|e.log|].status.Fetched? &&
        !IsStale(req, polls[|e.log|].status.body) &&
        polls[|e.log|].status.body.result == Some(Success) &&
        polls[|e.log|].status.body.fullDisplayName == e.verdict.displayName
    ensures
      var e := Run(req, s, polls);
      e.verdict.JobFailed? ==>
        |e.log| < |polls| && polls[|e.log|].status.Fetched? &&
        !IsStale(req, polls[|e.log|].status.body) &&
        polls[|e.log|].status.body.result in {Some(Failure), Some(Aborted)} &&
        FailureMessage(polls[|e.log|].status.body.fullDisplayName) == e.verdict.message
    decreases |polls|
  {
    if polls != [] {
      var (s', out) := Step(req, s, polls[0]);
      if out.Continue? {
        ExitDecidedByLastPoll(req, s', polls[1..]);
        var rest := Run(req, s', polls[1..]);
        if rest.verdict.Succeeded? || rest.verdict.JobFailed? {
          assert polls[1..][|rest.log|] == polls[|rest.log| + 1];
        }
      }
    }
  }

  /** With every fetch answered, the loop has only two exits, the SUCCESS
      break and the FAILURE/ABORTED throw, each decided by the poll that
      ended the loop; otherwise it is still polling at the deadline. */
  lemma {:induction false} OnlyTwoExits(req: JobRequest, s: TrackerState, polls: seq<Poll>)
    requires forall i :: 0 <= i < |polls| ==> polls[i].queue.Fetched? && polls[i].status.Fetched?
    ensures !Run(req, s, polls).verdict.FetchFailed?
    ensures
      var e := Run(req, s, polls);
      e.verdict.Succeeded? ==>
        |e.log| < |polls| &&
        !IsStale(req, polls[|e.log|].status.body) &&
        polls[|e.log|].status.body.result == Some(Success) &&
        polls[|e.log|].status.body.fullDisplayName == e.verdict.displayName
    ensures
      var e := Run(req, s, polls);
      e.verdict.JobFailed? ==>
        |e.log| < |polls| &&
        !IsStale(req, polls[|e.log|].status.body) &&
        polls[|e.log|].status.body.result in {Some(Failure), Some(Aborted)} &&
        FailureMessage(polls[|e.log|].status.body.fullDisplayName) == e.verdict.message
    decreases |polls|
  {
    ExitDecidedByLastPoll(req, s, polls);
    if polls != [] {
      var (s', out) := Step(req, s, polls[0]);
      if out.Continue? {
        OnlyTwoExits(req, s', polls[1..]);
      }
    }
  }

  /** A final step is final: polls after the one that ended the loop are
      never read. */
  lemma {:induction false} FinalIsFinal(req: JobRequest, s: TrackerState, polls: seq<Poll>, more: seq<Poll>)
    requires Run(req, s, polls).verdict != DeadlineReached
    ensures Run(req, s, polls + more) == Run(req, s, polls)
    decreases |polls|
  {
    assert polls != [];
    assert (polls + more)[0] == polls[0];
    var (s', out) := Step(req, s, polls[0]);
    if out.Continue? {
      assert (polls + more)[1..] == polls[1..] + more;
      FinalIsFinal(req, s', polls[1..], more);
    }
  }

  /** The end-to-end scenario: "deploy" with env=prod is first seen queued,
      then a running build, then SUCCESS of build-42. */
  lemma DeployScenario(st0: Fetch<BuildStatus>, q2: Fetch<QueueSnapshot>)
    ensures
      var req := JobRequest("deploy", [("env", "prod")], 1000);
      var queued := QueueSnapshot([QueueItem("deploy", [Param("env", "prod")])]);
      var running := BuildStatus("build-42", 1005, None, 60, [Param("env", "prod")]);
      var done := BuildStatus("build-42", 1005, Some(Success), 60, [Param("env", "prod")]);
      var polls := [Poll(Fetched(queued), st0), Poll(Fetched(QueueSnapshot([])), Fetched(running)), Poll(q2, Fetched(done))];
      Run(req, Initial(), polls) == Execution(Succeeded("build-42"), [InQueue, Running(60)])
  {
    var req := JobRequest("deploy", [("env", "prod")], 1000);
    var queued := QueueSnapshot([QueueItem("deploy", [Param("env", "prod")])]);
    var running := BuildStatus("build-42", 1005, None, 60, [Param("env", "prod")]);
    var done := BuildStatus("build-42", 1005, Some(Success), 60, [Param("env", "prod")]);
    var polls := [Poll(Fetched(queued), st0), Poll(Fetched(QueueSnapshot([])), Fetched(running)), Poll(q2, Fetched(done))];
    assert Satisfies(Param("env", "prod"), "env", "prod");
    assert queued.items[0] in queued.items;
    assert IsJobInQueue(queued, req.jobName, req.parameters);
    EmptyQueueNeverHolds(req.jobName, req.parameters);
    var s1 := TrackerState(true, true);
    assert Step(req, Initial(), polls[0]) == (s1, Continue(InQueue));
    var s2 := TrackerState(false, false);
    assert Step(req, s1, polls[1]) == (s2, Continue(Running(60)));
    assert Step(req, s2, polls[2]) == (s2, Stop(Succeeded("build-42")));
    assert polls[1..][1..] == [polls[2]];
    assert Run(req, s2, [polls[2]]) == Execution(Succeeded("build-42"), []);
    assert Run(req, s1, polls[1..]) == Execution(Succeeded("build-42"), [Running(60)]);
  }
}
