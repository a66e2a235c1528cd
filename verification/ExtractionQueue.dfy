/** The extraction scheduler (wevibe-dashboard/lib/extraction-queue.ts): the public calls and the
    pieces of `runJob` between its awaits, in any order. */
module ExtractionQueue {
  // A run in flight stands for a `runJob` that has started and not reached the end of its `finally`.

  import opened Wrappers

  /** Session ids, already trimmed. */
  type Session = nat

  datatype Status = Queued | Running

  /** `serial` tells job objects apart. */
  datatype Job = Job(serial: nat, session: Session, status: Status, isResume: bool)

  datatype Run = Run(serial: nat, session: Session)

  /** `started` remembers, for the proofs, which jobs ever got a run. */
  datatype Queue = Queue(
    jobs: seq<Job>, parked: set<Session>, failed: map<Session, string>, isProcessing: bool, runs: seq<Run>,
    nextSerial: nat, started: set<nat>)

  function EmptyQueue(): Queue {
    Queue([], {}, map[], false, [], 0, {})
  }

  // ----- the pieces of code -----

  function DropSession(jobs: seq<Job>, s: Session): seq<Job> {
    if jobs == [] then []
    else if jobs[0].session == s then DropSession(jobs[1..], s)
    else [jobs[0]] + DropSession(jobs[1..], s)
  }

  predicate HasSession(jobs: seq<Job>, s: Session) {
    exists i :: 0 <= i < |jobs| && jobs[i].session == s
  }

  function FirstQueued(jobs: seq<Job>): (r: nat)
    ensures r <= |jobs|
    ensures r < |jobs| ==> jobs[r].status == Queued
    ensures forall i :: 0 <= i < r ==> jobs[i].status != Queued
  {
    if jobs == [] || jobs[0].status == Queued then 0 else 1 + FirstQueued(jobs[1..])
  }

  function ProcessNext(q: Queue): Queue {
    var i := FirstQueued(q.jobs);
    if q.isProcessing || i == |q.jobs| then q
    else
      var job := q.jobs[i];
      q.(jobs := q.jobs[i := job.(status := Running)],
         isProcessing := true,
         runs := q.runs + [Run(job.serial, job.session)],
         started := q.started + {job.serial})
  }

  function Pushed(q: Queue, s: Session, isResume: bool): Queue {
    q.(jobs := q.jobs + [Job(q.nextSerial, s, Queued, isResume)], nextSerial := q.nextSerial + 1)
  }

  function Forgotten(q: Queue, s: Session): Queue {
    q.(failed := q.failed - {s}, parked := q.parked - {s})
  }

  function Enqueue(q: Queue, s: Session): Queue {
    if HasSession(q.jobs, s) then Forgotten(q, s) else ProcessNext(Pushed(Forgotten(q, s), s, false))
  }

  /** The part of a resume that runs once the server has accepted it. */
  function Resume(q: Queue, s: Session): Queue {
    var f := Forgotten(q, s);
    ProcessNext(Pushed(f.(jobs := DropSession(f.jobs, s)), s, true))
  }

  /** A poll that found the job waiting for a decision. */
  function Park(q: Queue, r: nat): Queue
    requires r < |q.runs|
  {
    q.(parked := q.parked + {q.runs[r].session}, jobs := DropSession(q.jobs, q.runs[r].session))
  }

  /** The end of a run: a failure it records, if any (of its `catch`, or of a poll whose output held no memories),
      and its `finally`. */
  function Finish(q: Queue, r: nat, reason: Option<string>): Queue
    requires r < |q.runs|
  {
    var s := q.runs[r].session;
    ProcessNext(q.(failed := if reason.None? then q.failed else q.failed[s := reason.value],
                   jobs := DropSession(q.jobs, s),
                   isProcessing := false,
                   runs := q.runs[..r] + q.runs[r + 1..]))
  }

  // ----- runs -----

  datatype Event =
    | CallEnqueue(session: Session)
    | CallResume(session: Session)
    | Parks(run: nat)
    | Ends(run: nat, reason: Option<string>)
    | Reattaches(sessions: set<Session>)

  predicate Legal(q: Queue, e: Event) {
    (e.Parks? || e.Ends?) ==> e.run < |q.runs|
  }

  function Step(q: Queue, e: Event): Queue
    requires Legal(q, e)
  {
    match e
    case CallEnqueue(s) => Enqueue(q, s)
    case CallResume(s) => Resume(q, s)
    case Parks(r) => Park(q, r)
    case Ends(r, reason) => Finish(q, r, reason)
    case Reattaches(sessions) => q.(parked := q.parked + sessions)
  }

  predicate LegalRun(q: Queue, events: seq<Event>)
    decreases |events|
  {
    events == [] || (Legal(q, events[0]) && LegalRun(Step(q, events[0]), events[1..]))
  }

  function Play(q: Queue, events: seq<Event>): Queue
    requires LegalRun(q, events)
    decreases |events|
  {
    if events == [] then q else Play(Step(q, events[0]), events[1..])
  }

  // ----- what every run keeps -----

  ghost predicate JobsDistinct(jobs: seq<Job>) {
    forall i, j :: 0 <= i < j < |jobs| ==> jobs[i].session != jobs[j].session && jobs[i].serial != jobs[j].serial
  }

  /** At most one run is in flight, and `isProcessing` is true exactly then; sessions and jobs are
      distinct; a job that shows as running is the one in flight; a job that waits never ran. */
  ghost predicate Ready(q: Queue) {
    && JobsDistinct(q.jobs)
    && |q.runs| == (if q.isProcessing then 1 else 0)
    && (forall i :: 0 <= i < |q.jobs| && q.jobs[i].status == Running ==>
          q.isProcessing && q.runs[0] == Run(q.jobs[i].serial, q.jobs[i].session))
    && (forall i :: 0 <= i < |q.jobs| ==> q.jobs[i].serial < q.nextSerial)
    && (forall n :: n in q.started ==> n < q.nextSerial)
    && (forall i :: 0 <= i < |q.jobs| ==> (q.jobs[i].serial in q.started <==> q.jobs[i].status == Running))
  }

  /** And nothing waits while nothing is in flight. */
  ghost predicate Inv(q: Queue) {
    Ready(q) && (q.jobs != [] ==> q.isProcessing)
  }

  lemma {:induction false} DropFacts(jobs: seq<Job>, s: Session)
    ensures forall j :: j in DropSession(jobs, s) <==> j in jobs && j.session != s
    ensures JobsDistinct(jobs) ==> JobsDistinct(DropSession(jobs, s))
  {
    if jobs != [] {
      DropFacts(jobs[1..], s);
      var rest := DropSession(jobs[1..], s);
      if JobsDistinct(jobs) && jobs[0].session != s {
        forall k | 0 <= k < |rest| ensures rest[k].session != jobs[0].session && rest[k].serial != jobs[0].serial {
          assert rest[k] in rest;
        }
      }
    }
  }

  lemma NextKeeps(q: Queue)
    requires Ready(q)
    ensures Inv(ProcessNext(q))
  {
  }

  lemma DropKeeps(q: Queue, s: Session)
    requires Ready(q)
    ensures Ready(q.(jobs := DropSession(q.jobs, s)))
    ensures !HasSession(DropSession(q.jobs, s), s)
  {
    DropFacts(q.jobs, s);
    var left := DropSession(q.jobs, s);
    forall i | 0 <= i < |left| ensures left[i] in q.jobs && left[i].session != s {
      assert left[i] in left;
    }
  }

  lemma PushKeeps(q: Queue, s: Session, isResume: bool)
    requires Ready(q) && !HasSession(q.jobs, s)
    ensures Ready(Pushed(q, s, isResume))
  {
  }

  lemma ForgetKeeps(q: Queue, s: Session)
    ensures Ready(q) ==> Ready(Forgotten(q, s))
    ensures Inv(q) ==> Inv(Forgotten(q, s))
  {
  }

  /** A run that ends takes its own job with it, so nothing shows as running any more. */
  lemma FinishKeeps(q: Queue, r: nat, reason: Option<string>)
    requires Ready(q) && r < |q.runs|
    ensures Inv(Finish(q, r, reason))
  {
    var s := q.runs[r].session;
    DropFacts(q.jobs, s);
    DropKeeps(q, s);
    var left := DropSession(q.jobs, s);
    forall i | 0 <= i < |left| ensures left[i].status != Running {
      assert left[i] in left;
    }
    assert q.runs[..r] + q.runs[r + 1..] == [];
    NextKeeps(q.(failed := if reason.None? then q.failed else q.failed[s := reason.value], jobs := left,
                 isProcessing := false, runs := q.runs[..r] + q.runs[r + 1..]));
  }

  lemma StepKeeps(q: Queue, e: Event)
    requires Inv(q) && Legal(q, e)
    ensures Inv(Step(q, e))
  {
    match e
    case CallEnqueue(s) =>
      ForgetKeeps(q, s);
      if !HasSession(q.jobs, s) {
        PushKeeps(Forgotten(q, s), s, false);
        NextKeeps(Pushed(Forgotten(q, s), s, false));
      }
    case CallResume(s) =>
      ForgetKeeps(q, s);
      DropKeeps(Forgotten(q, s), s);
      var dropped := Forgotten(q, s).(jobs := DropSession(q.jobs, s));
      PushKeeps(dropped, s, true);
      NextKeeps(Pushed(dropped, s, true));
    case Parks(r) => DropKeeps(q, q.runs[r].session);
    case Ends(r, reason) => FinishKeeps(q, r, reason);
    case Reattaches(sessions) =>
  }

  /** In every run from an empty queue, whatever the order of calls, polls and endings. */
  lemma {:induction false} RunsKeep(q: Queue, events: seq<Event>)
    requires Inv(q) && LegalRun(q, events)
    ensures Inv(Play(q, events))
    decreases |events|
  {
    if events != [] {
      StepKeeps(q, events[0]);
      RunsKeep(Step(q, events[0]), events[1..]);
    }
  }

  lemma EmptyIsReady()
    ensures Inv(EmptyQueue())
  {
  }

  // ----- does an accepted resume run? -----

  /** Job `k` waits in the list. */
  ghost predicate Waits(q: Queue, s: Session, k: nat) {
    exists i :: 0 <= i < |q.jobs| && q.jobs[i] == Job(k, s, Queued, true)
  }

  predicate InFlight(q: Queue, s: Session) {
    exists i :: 0 <= i < |q.runs| && q.runs[i].session == s
  }

  /** The resumed job has run, or waits with nothing about to throw it out. */
  ghost predicate Safe(q: Queue, s: Session, k: nat) {
    k in q.started || (Waits(q, s, k) && !InFlight(q, s))
  }

  lemma NextSafe(q: Queue, s: Session, k: nat)
    requires Ready(q) && Safe(q, s, k)
    ensures Safe(ProcessNext(q), s, k)
  {
    if k !in q.started {
      var i :| 0 <= i < |q.jobs| && q.jobs[i] == Job(k, s, Queued, true);
      var j := FirstQueued(q.jobs);
      if !q.isProcessing && j != i {
        assert q.jobs[j].session != s;
        assert ProcessNext(q).jobs[i] == q.jobs[i];
      } else if q.isProcessing {
        assert ProcessNext(q) == q;
      }
    }
  }

  lemma DropSafe(q: Queue, other: Session, s: Session, k: nat)
    requires Safe(q, s, k) && other != s
    ensures Safe(q.(jobs := DropSession(q.jobs, other)), s, k)
  {
    DropFacts(q.jobs, other);
    if k !in q.started {
      var i :| 0 <= i < |q.jobs| && q.jobs[i] == Job(k, s, Queued, true);
      var left := DropSession(q.jobs, other);
      assert q.jobs[i] in left;
      var j :| 0 <= j < |left| && left[j] == q.jobs[i];
    }
  }

  lemma PushSafe(q: Queue, other: Session, isResume: bool, s: Session, k: nat)
    requires Safe(q, s, k)
    ensures Safe(Pushed(q, other, isResume), s, k)
  {
    if k !in q.started {
      var i :| 0 <= i < |q.jobs| && q.jobs[i] == Job(k, s, Queued, true);
      assert Pushed(q, other, isResume).jobs[i] == q.jobs[i];
    }
  }

  lemma FinishSafe(q: Queue, r: nat, reason: Option<string>, s: Session, k: nat)
    requires Inv(q) && r < |q.runs| && Safe(q, s, k)
    ensures Safe(Finish(q, r, reason), s, k)
  {
    var other := q.runs[r].session;
    var left := DropSession(q.jobs, other);
    var freed := q.(failed := if reason.None? then q.failed else q.failed[other := reason.value], jobs := left,
                    isProcessing := false, runs := q.runs[..r] + q.runs[r + 1..]);
    assert freed.runs == [];
    FinishReady(q, r, freed);
    if k !in q.started {
      assert other != s;
      DropSafe(q, other, s, k);
      var i :| 0 <= i < |left| && left[i] == Job(k, s, Queued, true);
      assert freed.jobs[i] == left[i];
    }
    NextSafe(freed, s, k);
  }

  lemma FinishReady(q: Queue, r: nat, freed: Queue)
    requires Ready(q) && r < |q.runs|
    requires freed.jobs == DropSession(q.jobs, q.runs[r].session) && !freed.isProcessing && freed.runs == []
    requires freed.nextSerial == q.nextSerial && freed.started == q.started
    ensures Ready(freed)
  {
    DropKeeps(q, q.runs[r].session);
    DropFacts(q.jobs, q.runs[r].session);
    forall i | 0 <= i < |freed.jobs| ensures freed.jobs[i].status != Running {
      assert freed.jobs[i] in freed.jobs;
    }
  }

  lemma StepSafe(q: Queue, e: Event, s: Session, k: nat)
    requires Inv(q) && Legal(q, e) && Safe(q, s, k) && e != CallResume(s)
    ensures Safe(Step(q, e), s, k)
  {
    match e
    case CallEnqueue(other) =>
      assert Safe(Forgotten(q, other), s, k);
      if !HasSession(q.jobs, other) {
        ForgetKeeps(q, other);
        PushKeeps(Forgotten(q, other), other, false);
        PushSafe(Forgotten(q, other), other, false, s, k);
        NextSafe(Pushed(Forgotten(q, other), other, false), s, k);
      }
    case CallResume(other) =>
      var f := Forgotten(q, other);
      assert Safe(f, s, k);
      ForgetKeeps(q, other);
      DropKeeps(f, other);
      DropSafe(f, other, s, k);
      var dropped := f.(jobs := DropSession(f.jobs, other));
      PushKeeps(dropped, other, true);
      PushSafe(dropped, other, true, s, k);
      NextSafe(Pushed(dropped, other, true), s, k);
    case Parks(r) =>
      if k !in q.started {
        DropSafe(q, q.runs[r].session, s, k);
      }
    case Ends(r, reason) => FinishSafe(q, r, reason, s, k);
    case Reattaches(_) =>
  }

  ghost predicate NotResumed(events: seq<Event>, s: Session) {
    forall i :: 0 <= i < |events| ==> events[i] != CallResume(s)
  }

  /** Job `k` is never thrown away: after any run without another resume of its session, it has run or it
      still waits. */
  ghost predicate NeverDropped(q: Queue, s: Session, k: nat) {
    forall events :: LegalRun(q, events) && NotResumed(events, s) ==>
      k in Play(q, events).started || Waits(Play(q, events), s, k)
  }

  lemma {:induction false} SafeRuns(q: Queue, events: seq<Event>, s: Session, k: nat)
    requires Inv(q) && LegalRun(q, events) && NotResumed(events, s) && Safe(q, s, k)
    ensures Safe(Play(q, events), s, k)
    decreases |events|
  {
    if events != [] {
      StepKeeps(q, events[0]);
      StepSafe(q, events[0], s, k);
      assert NotResumed(events[1..], s);
      SafeRuns(Step(q, events[0]), events[1..], s, k);
    }
  }

  lemma ResumedIsSafe(q: Queue, s: Session)
    requires Inv(q) && !InFlight(q, s)
    ensures Safe(Resume(q, s), s, q.nextSerial)
  {
    var f := Forgotten(q, s);
    ForgetKeeps(q, s);
    DropKeeps(f, s);
    var dropped := f.(jobs := DropSession(f.jobs, s));
    PushKeeps(dropped, s, true);
    var pushed := Pushed(dropped, s, true);
    assert pushed.jobs[|pushed.jobs| - 1] == Job(q.nextSerial, s, Queued, true);
    NextSafe(pushed, s, q.nextSerial);
  }

  /** The run in flight for the same session throws the resumed job out when it ends. */
  lemma ResumedIsLost(q: Queue, s: Session)
    requires Inv(q) && InFlight(q, s)
    ensures var after := Resume(q, s);
            && LegalRun(after, [Ends(0, None)])
            && q.nextSerial !in Play(after, [Ends(0, None)]).started
            && !Waits(Play(after, [Ends(0, None)]), s, q.nextSerial)
  {
    var after := Resume(q, s);
    assert q.isProcessing && after.runs == q.runs;
    assert [Ends(0, None)][1..] == [];
    StepKeeps(q, CallResume(s));
    var end := Finish(after, 0, None);
    assert Play(after, [Ends(0, None)]) == Play(end, []);
    assert q.nextSerial !in q.started && after.started == q.started;
    var left := DropSession(after.jobs, s);
    DropFacts(after.jobs, s);
    forall i | 0 <= i < |left| ensures left[i].session != s && left[i].serial != q.nextSerial {
      assert left[i] in left && left[i] in after.jobs;
      var j :| 0 <= j < |after.jobs| && after.jobs[j] == left[i];
      LastHasSerial(q, s, j);
    }
  }

  /** Only the resumed job has the resumed job's serial. */
  lemma LastHasSerial(q: Queue, s: Session, j: nat)
    requires Inv(q) && q.isProcessing && j < |Resume(q, s).jobs| && Resume(q, s).jobs[j].session != s
    ensures Resume(q, s).jobs[j].serial != q.nextSerial
  {
    DropFacts(q.jobs, s);
    var left := DropSession(q.jobs, s);
    assert Resume(q, s).jobs == left + [Job(q.nextSerial, s, Queued, true)];
    assert left[j] in left;
  }

  /** A resume is never dropped exactly when no run of its session was in flight when it was accepted. */
  lemma ResumeExactly(q: Queue, s: Session)
    requires Inv(q)
    ensures NeverDropped(Resume(q, s), s, q.nextSerial) <==> !InFlight(q, s)
  {
    var after, k := Resume(q, s), q.nextSerial;
    StepKeeps(q, CallResume(s));
    if InFlight(q, s) {
      ResumedIsLost(q, s);
      assert NotResumed([Ends(0, None)], s);
    } else {
      ResumedIsSafe(q, s);
      forall events | LegalRun(after, events) && NotResumed(events, s)
        ensures k in Play(after, events).started || Waits(Play(after, events), s, k)
      {
        SafeRuns(after, events, s, k);
      }
    }
  }

  // ----- and how soon? -----

  /** How many waiting jobs come before job `k`. */
  function Ahead(jobs: seq<Job>, k: nat): nat {
    if jobs == [] || jobs[0].serial == k then 0
    else (if jobs[0].status == Queued then 1 else 0) + Ahead(jobs[1..], k)
  }

  function CountEnds(events: seq<Event>): nat {
    if events == [] then 0 else (if events[0].Ends? then 1 else 0) + CountEnds(events[1..])
  }

  predicate Listed(jobs: seq<Job>, k: nat) {
    exists i :: 0 <= i < |jobs| && jobs[i].serial == k
  }

  lemma {:induction false} AheadDrop(jobs: seq<Job>, other: Session, k: nat)
    requires forall i :: 0 <= i < |jobs| && jobs[i].serial == k ==> jobs[i].session != other
    ensures Ahead(DropSession(jobs, other), k) <= Ahead(jobs, k)
  {
    if jobs != [] && jobs[0].serial != k {
      AheadDrop(jobs[1..], other, k);
    }
  }

  lemma {:induction false} AheadPush(jobs: seq<Job>, j: Job, k: nat)
    requires Listed(jobs, k)
    ensures Ahead(jobs + [j], k) == Ahead(jobs, k)
  {
    if jobs[0].serial != k {
      assert (jobs + [j])[1..] == jobs[1..] + [j];
      var i :| 0 <= i < |jobs| && jobs[i].serial == k;
      assert jobs[1..][i - 1].serial == k;
      AheadPush(jobs[1..], j, k);
    }
  }

  lemma {:induction false} AheadStart(jobs: seq<Job>, i: nat, j: nat, k: nat)
    requires j < i < |jobs| && jobs[i].serial == k && jobs[j].status == Queued
    requires forall m :: 0 <= m < i ==> jobs[m].serial != k
    ensures Ahead(jobs[j := jobs[j].(status := Running)], k) == Ahead(jobs, k) - 1
  {
    var after := jobs[j := jobs[j].(status := Running)];
    if j > 0 {
      assert after[1..] == jobs[1..][j - 1 := jobs[1..][j - 1].(status := Running)];
      AheadStart(jobs[1..], i - 1, j - 1, k);
    } else {
      assert after[1..] == jobs[1..];
    }
  }

  /** Starting a job either starts `k` or takes one from ahead of it. */
  lemma AheadNext(q: Queue, s: Session, k: nat)
    requires Ready(q) && Waits(q, s, k)
    ensures k in ProcessNext(q).started
            || Ahead(ProcessNext(q).jobs, k) == Ahead(q.jobs, k) - if q.isProcessing then 0 else 1
  {
    if !q.isProcessing {
      var i :| 0 <= i < |q.jobs| && q.jobs[i] == Job(k, s, Queued, true);
      var j := FirstQueued(q.jobs);
      if j < i {
        AheadStart(q.jobs, i, j, k);
      }
    }
  }

  lemma OthersSession(q: Queue, s: Session, k: nat, other: Session)
    requires Ready(q) && Waits(q, s, k) && other != s
    ensures forall i :: 0 <= i < |q.jobs| && q.jobs[i].serial == k ==> q.jobs[i].session != other
  {
    var i :| 0 <= i < |q.jobs| && q.jobs[i] == Job(k, s, Queued, true);
  }

  /** No event puts anything ahead of a waiting resume, and every ending takes something away. */
  lemma StepAhead(q: Queue, e: Event, s: Session, k: nat)
    requires Inv(q) && Legal(q, e) && e != CallResume(s)
    requires k !in q.started && Waits(q, s, k) && !InFlight(q, s)
    ensures k in Step(q, e).started || Ahead(Step(q, e).jobs, k) + (if e.Ends? then 1 else 0) <= Ahead(q.jobs, k)
  {
    match e
    case CallEnqueue(other) =>
      assert q.isProcessing;
      AheadPush(q.jobs, Job(q.nextSerial, other, Queued, false), k);
    case CallResume(other) =>
      assert q.isProcessing;
      OthersSession(q, s, k, other);
      AheadDrop(q.jobs, other, k);
      var f := Forgotten(q, other);
      DropSafe(f, other, s, k);
      var left := f.(jobs := DropSession(f.jobs, other));
      AheadPush(left.jobs, Job(q.nextSerial, other, Queued, true), k);
    case Parks(r) =>
      OthersSession(q, s, k, q.runs[r].session);
      AheadDrop(q.jobs, q.runs[r].session, k);
    case Ends(r, reason) =>
      var other := q.runs[r].session;
      OthersSession(q, s, k, other);
      AheadDrop(q.jobs, other, k);
      var freed := q.(failed := if reason.None? then q.failed else q.failed[other := reason.value],
                      jobs := DropSession(q.jobs, other), isProcessing := false, runs := q.runs[..r] + q.runs[r + 1..]);
      FinishReady(q, r, freed);
      DropSafe(q, other, s, k);
      assert freed.jobs == q.(jobs := DropSession(q.jobs, other)).jobs;
      AheadNext(freed, s, k);
    case Reattaches(_) =>
  }

  lemma {:induction false} StartedStays(q: Queue, events: seq<Event>, k: nat)
    requires LegalRun(q, events) && k in q.started
    ensures k in Play(q, events).started
    decreases |events|
  {
    if events != [] {
      StartedStays(Step(q, events[0]), events[1..], k);
    }
  }

  /** A waiting resume runs once more runs have ended than jobs were waiting ahead of it. */
  lemma {:induction false} ResumeRunsInTurn(q: Queue, events: seq<Event>, s: Session, k: nat)
    requires Inv(q) && LegalRun(q, events) && NotResumed(events, s) && Safe(q, s, k)
    requires k in q.started || CountEnds(events) > Ahead(q.jobs, k)
    ensures k in Play(q, events).started
    decreases |events|
  {
    if k in q.started {
      StartedStays(q, events, k);
    } else {
      StepKeeps(q, events[0]);
      StepSafe(q, events[0], s, k);
      StepAhead(q, events[0], s, k);
      assert NotResumed(events[1..], s);
      ResumeRunsInTurn(Step(q, events[0]), events[1..], s, k);
    }
  }
}
