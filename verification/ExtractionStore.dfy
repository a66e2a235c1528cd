/** The extraction scheduler's own code: module state changed in place, and the bounded poll loop
    (wevibe-dashboard/lib/extraction-queue.ts). */
module ExtractionStore {
  import opened ExtractionQueue
  import opened Wrappers

  class Store {
    var jobs: seq<Job>
    var parkedJobs: set<Session>
    var failedSessions: map<Session, string>
    var isProcessing: bool
    ghost var runs: seq<Run>
    var nextSerial: nat
    ghost var started: set<nat>

    ghost function Contents(): Queue
      reads this
    {
      Queue(jobs, parkedJobs, failedSessions, isProcessing, runs, nextSerial, started)
    }

    constructor ()
      ensures Contents() == EmptyQueue()
    {
      jobs, parkedJobs, failedSessions, isProcessing, runs, nextSerial, started := [], {}, map[], false, [], 0, {};
    }

    /** `jobs.filter((job) => job.sessionId !== sessionId)`. */
    method FilterJobs(sessionId: Session)
      modifies `jobs
      ensures jobs == DropSession(old(jobs), sessionId)
    {
      var kept: seq<Job> := [];
      var i := 0;
      assert jobs[0..] == jobs;
      while i < |jobs|
        invariant i <= |jobs| && jobs == old(jobs)
        invariant kept + DropSession(jobs[i..], sessionId) == DropSession(jobs, sessionId)
      {
        assert jobs[i..][0] == jobs[i] && jobs[i..][1..] == jobs[i + 1..];
        if jobs[i].session != sessionId {
          assert kept + ([jobs[i]] + DropSession(jobs[i + 1..], sessionId))
              == (kept + [jobs[i]]) + DropSession(jobs[i + 1..], sessionId);
          kept := kept + [jobs[i]];
        }
        i := i + 1;
      }
      jobs := kept;
    }

    method ProcessNext()
      modifies this
      ensures Contents() == ExtractionQueue.ProcessNext(old(Contents()))
    {
      if isProcessing {
        return;
      }
      var i := 0;
      while i < |jobs| && jobs[i].status != Queued
        invariant i <= FirstQueued(jobs)
      {
        i := i + 1;
      }
      if i == |jobs| {
        return;
      }
      var nextJob := jobs[i];
      jobs := jobs[i := nextJob.(status := Running)];
      isProcessing := true;
      runs := runs + [Run(nextJob.serial, nextJob.session)];
      started := started + {nextJob.serial};
    }

    method EnqueueExtraction(sessionId: Session)
      modifies this
      ensures Contents() == Enqueue(old(Contents()), sessionId)
    {
      failedSessions := failedSessions - {sessionId};
      parkedJobs := parkedJobs - {sessionId};
      var i := 0;
      while i < |jobs| && jobs[i].session != sessionId
        invariant i <= |jobs| && forall j :: 0 <= j < i ==> jobs[j].session != sessionId
      {
        i := i + 1;
      }
      if i < |jobs| {
        return;
      }
      jobs := jobs + [Job(nextSerial, sessionId, Queued, false)];
      nextSerial := nextSerial + 1;
      ProcessNext();
    }

    /** What `resumeParkedJob` does once the server has answered with a job id. */
    method AcceptResume(sessionId: Session)
      modifies this
      ensures Contents() == Resume(old(Contents()), sessionId)
    {
      parkedJobs := parkedJobs - {sessionId};
      failedSessions := failedSessions - {sessionId};
      FilterJobs(sessionId);
      jobs := jobs + [Job(nextSerial, sessionId, Queued, true)];
      nextSerial := nextSerial + 1;
      ProcessNext();
    }

    method ParkRun(r: nat, sessionId: Session)
      requires r < |runs| && runs[r].session == sessionId
      modifies this
      ensures Contents() == Park(old(Contents()), r)
    {
      parkedJobs := parkedJobs + {sessionId};
      FilterJobs(sessionId);
    }

    /** What the end of `runJob` records as a failure, from its `catch` or from a poll whose output held no
        memories, and its `finally`. */
    method EndRun(ghost r: nat, sessionId: Session, reason: Option<string>)
      requires r < |runs| && runs[r].session == sessionId
      modifies this
      ensures Contents() == Finish(old(Contents()), r, reason)
    {
      if reason.Some? {
        failedSessions := failedSessions[sessionId := reason.value];
      }
      FilterJobs(sessionId);
      isProcessing := false;
      runs := runs[..r] + runs[r + 1..];
      ProcessNext();
    }
  }

  // ----- polling -----

  const POLL_INTERVAL_MS: int := 4000
  const MAX_POLL_MS: int := 20 * 60 * 1000
  const MAX_CONSECUTIVE_POLL_FAILURES: nat := 3

  /** What a status request comes to. `Unreadable` is a response whose body does not parse. */
  datatype Response =
    | Thrown
    | NotOk
    | Unreadable
    | StatusRunning
    | StatusAwaiting
    | StatusError
    | StatusDone(hasMemories: bool)
    | StatusOther

  predicate Fails(r: Response) {
    r == Thrown || r == NotOk
  }

  datatype PollOutcome = Done | Parked | TimedOut | GaveUp | Broken

  /** Three failed requests in a row, ending at request `i`. */
  predicate ThreeFailed(respond: nat -> Response, i: nat) {
    i >= 2 && Fails(respond(i - 2)) && Fails(respond(i - 1)) && Fails(respond(i))
  }

  /** What request `i` decides by itself, if anything. */
  predicate Decides(r: Response) {
    r == StatusAwaiting || r == StatusError || r == Unreadable || r.StatusDone?
  }

  function Decision(r: Response): PollOutcome
    requires Decides(r)
  {
    if r == StatusAwaiting then Parked else if r == StatusDone(true) then Done else Broken
  }

  /** The run of failures that request `i` ends, as the counter counts it. */
  function Streak(respond: nat -> Response, n: nat): nat {
    if n == 0 || !Fails(respond(n - 1)) then 0 else 1 + Streak(respond, n - 1)
  }

  lemma StreakStarts(respond: nat -> Response)
    ensures Streak(respond, 0) == 0
  {
  }

  lemma StreakStep(respond: nat -> Response, n: nat)
    requires n > 0
    ensures Streak(respond, n) == if Fails(respond(n - 1)) then Streak(respond, n - 1) + 1 else 0
  {
  }

  lemma StreakIsThree(respond: nat -> Response, n: nat)
    requires n > 0
    ensures Streak(respond, n) >= 3 <==> ThreeFailed(respond, n - 1)
  {
    if n >= 2 {
      assert Streak(respond, n - 1) == if !Fails(respond(n - 2)) then 0 else 1 + Streak(respond, n - 2);
    }
  }

  /** The `i`-th sleep takes at least the interval. */
  ghost predicate Ticks(clock: nat -> int, i: nat) {
    clock(i + 1) >= clock(i) + POLL_INTERVAL_MS
  }

  /** `clock(i)` is the time at the check after the `i`-th sleep, `clock(0)` the time at the start. When
      each sleep takes at least the interval, at most 300 requests are made. Polling gives up on failed
      requests exactly when the last three failed, and never overlooks three in a row or an answer that
      decides. */
  method PollJob(clock: nat -> int, respond: nat -> Response) returns (outcome: PollOutcome, requests: nat)
    requires forall i: nat :: Ticks(clock, i)
    ensures requests <= 300
    ensures outcome == GaveUp <==> requests > 0 && ThreeFailed(respond, requests - 1)
    ensures requests > 0 ==> clock(requests) <= clock(0) + MAX_POLL_MS
    ensures outcome == TimedOut ==> clock(requests + 1) > clock(0) + MAX_POLL_MS
    ensures outcome != TimedOut && outcome != GaveUp ==>
              requests > 0 && Decides(respond(requests - 1)) && outcome == Decision(respond(requests - 1))
    ensures forall i :: 0 <= i < requests - 1 ==> !ThreeFailed(respond, i) && !Decides(respond(i))
    ensures outcome == TimedOut && requests > 0 ==> !ThreeFailed(respond, requests - 1) && !Decides(respond(requests - 1))
  {
    hide Streak, ThreeFailed;
    StreakStarts(respond);
    var deadline := clock(0) + MAX_POLL_MS;
    var consecutiveFailures := 0;
    requests := 0;
    while true
      invariant clock(requests) >= clock(0) + requests * POLL_INTERVAL_MS
      invariant requests > 0 ==> clock(requests) <= deadline
      invariant consecutiveFailures == Streak(respond, requests) && consecutiveFailures < 3
      invariant forall i :: 0 <= i < requests ==> !ThreeFailed(respond, i) && !Decides(respond(i))
      decreases 300 - requests
    {
      // sleep(POLL_INTERVAL_MS)
      assert Ticks(clock, requests);
      if clock(requests + 1) > deadline {
        return TimedOut, requests;
      }
      var response := respond(requests);
      requests := requests + 1;
      StreakStep(respond, requests);
      StreakIsThree(respond, requests);
      match response {
        case Thrown =>
          consecutiveFailures := consecutiveFailures + 1;
          if consecutiveFailures >= MAX_CONSECUTIVE_POLL_FAILURES {
            return GaveUp, requests;
          }
        case NotOk =>
          consecutiveFailures := consecutiveFailures + 1;
          if consecutiveFailures >= MAX_CONSECUTIVE_POLL_FAILURES {
            return GaveUp, requests;
          }
        case Unreadable => return Broken, requests;
        case StatusRunning => consecutiveFailures := 0;
        case StatusAwaiting => return Parked, requests;
        case StatusError => return Broken, requests;
        case StatusDone(hasMemories) => return if hasMemories then Done else Broken, requests;
        case StatusOther => consecutiveFailures := 0;
      }
    }
  }
}
