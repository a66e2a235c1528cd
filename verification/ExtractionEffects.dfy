/** What each call and each piece of a run does to the extraction scheduler's jobs, failures and parked
    sessions (wevibe-dashboard/lib/extraction-queue.ts), said of the lists before and after. */
module ExtractionEffects {
  import opened ExtractionQueue
  import opened Wrappers

  ghost predicate FailureOf(q: Queue, after: Queue, s: Session, reason: Option<string>) {
    && (s in after.failed <==> reason.Some?) && (reason.Some? ==> after.failed[s] == reason.value)
    && forall t :: t != s ==> (t in after.failed <==> t in q.failed) && (t in q.failed ==> after.failed[t] == q.failed[t])
  }

  ghost predicate Precedes(jobs: seq<Job>, a: Job, b: Job) {
    exists k, l :: 0 <= k < l < |jobs| && jobs[k] == a && jobs[l] == b
  }

  /** The jobs of other sessions, in their order. */
  ghost predicate KeepsOthers(before: seq<Job>, kept: seq<Job>, s: Session) {
    && (forall j :: j in kept <==> j in before && j.session != s)
    && forall i, j :: 0 <= i < j < |kept| ==> Precedes(before, kept[i], kept[j])
  }

  lemma PrecedesTail(jobs: seq<Job>, a: Job, b: Job)
    requires jobs != [] && (Precedes(jobs[1..], a, b) || (a == jobs[0] && b in jobs[1..]))
    ensures Precedes(jobs, a, b)
  {
    if Precedes(jobs[1..], a, b) {
      var k, l :| 0 <= k < l < |jobs[1..]| && jobs[1..][k] == a && jobs[1..][l] == b;
      assert jobs[k + 1] == a && jobs[l + 1] == b;
    } else {
      var l :| 0 <= l < |jobs[1..]| && jobs[1..][l] == b;
      assert jobs[0] == a && jobs[l + 1] == b;
    }
  }

  lemma ConsKeepsOthers(jobs: seq<Job>, rest: seq<Job>, s: Session)
    requires jobs != [] && KeepsOthers(jobs[1..], rest, s)
    ensures KeepsOthers(jobs, if jobs[0].session == s then rest else [jobs[0]] + rest, s)
  {
    var kept := if jobs[0].session == s then rest else [jobs[0]] + rest;
    var d := |kept| - |rest|;
    assert forall i :: d <= i < |kept| ==> kept[i] == rest[i - d];
    forall i, j | 0 <= i < j < |kept| ensures Precedes(jobs, kept[i], kept[j])
    {
      var j1 := j - d;
      assert rest[j1] in rest;
      if i >= d {
        var i1 := i - d;
        assert Precedes(jobs[1..], rest[i1], rest[j1]);
      }
      hide Precedes;
      PrecedesTail(jobs, kept[i], kept[j]);
    }
  }

  lemma {:induction false} DropKeepsOthers(jobs: seq<Job>, s: Session)
    ensures KeepsOthers(jobs, DropSession(jobs, s), s)
  {
    if jobs != [] {
      DropKeepsOthers(jobs[1..], s);
      hide KeepsOthers;
      ConsKeepsOthers(jobs, DropSession(jobs[1..], s), s);
    }
  }

  /** An enqueue forgets the session's failure and parking. A session that is listed stays where it is; another
      waits at the end, or runs at once when nothing is in flight. */
  lemma EnqueueExactly(q: Queue, s: Session)
    requires Inv(q)
    ensures var after := Enqueue(q, s);
            && FailureOf(q, after, s, None) && (forall t :: t in after.parked <==> t in q.parked && t != s)
            && if HasSession(q.jobs, s) then
                 after.jobs == q.jobs && after.runs == q.runs && after.isProcessing == q.isProcessing
               else if q.isProcessing then
                 && after.jobs == q.jobs + [Job(q.nextSerial, s, Queued, false)]
                 && after.runs == q.runs && after.isProcessing
               else
                 && after.jobs == [Job(q.nextSerial, s, Running, false)]
                 && after.runs == [Run(q.nextSerial, s)] && after.isProcessing
  {
  }

  /** An accepted resume forgets them too, and puts one job for the session, marked a resume, behind those of all
      other sessions. It runs at once when nothing is in flight. */
  lemma ResumeEffect(q: Queue, s: Session)
    requires Inv(q)
    ensures var after := Resume(q, s);
            && FailureOf(q, after, s, None) && (forall t :: t in after.parked <==> t in q.parked && t != s)
            && after.jobs != [] && after.isProcessing
            && var last := |after.jobs| - 1;
               && KeepsOthers(q.jobs, after.jobs[..last], s)
               && after.jobs[last] == Job(q.nextSerial, s, if q.isProcessing then Queued else Running, true)
               && after.runs == if q.isProcessing then q.runs else [Run(q.nextSerial, s)]
  {
    ResumeIs(q, s);
    DropKeepsOthers(q.jobs, s);
    var left := DropSession(q.jobs, s);
    var after := Resume(q, s);
    var last := Job(q.nextSerial, s, if q.isProcessing then Queued else Running, true);
    hide KeepsOthers, DropSession, Resume, Inv;
    assert (left + [last])[..|left|] == left;
  }

  lemma ResumeIs(q: Queue, s: Session)
    requires Inv(q)
    ensures var last := Job(q.nextSerial, s, if q.isProcessing then Queued else Running, true);
            Resume(q, s) ==
            q.(failed := q.failed - {s}, parked := q.parked - {s}, jobs := DropSession(q.jobs, s) + [last],
               isProcessing := true, runs := if q.isProcessing then q.runs else [Run(q.nextSerial, s)],
               nextSerial := q.nextSerial + 1, started := Resume(q, s).started)
  {
    var left := DropSession(q.jobs, s);
    if !q.isProcessing {
      assert q.jobs == [] && left == [] && q.runs == [];
      assert left + [Job(q.nextSerial, s, Queued, true)] == [Job(q.nextSerial, s, Queued, true)];
      assert left + [Job(q.nextSerial, s, Running, true)] == [Job(q.nextSerial, s, Running, true)];
      assert FirstQueued([Job(q.nextSerial, s, Queued, true)]) == 0;
    }
  }

  /** Parking marks the run's session and takes its job off the list; the run is still in flight. */
  lemma ParkExactly(q: Queue, r: nat)
    requires r < |q.runs|
    ensures var after := Park(q, r);
            var s := q.runs[r].session;
            && (forall t :: t in after.parked <==> t in q.parked || t == s)
            && KeepsOthers(q.jobs, after.jobs, s)
            && after.failed == q.failed && after.runs == q.runs && after.isProcessing == q.isProcessing
  {
    DropKeepsOthers(q.jobs, q.runs[r].session);
  }

  /** The end of a run records the failure it ended with, if any, takes the session's job off the list, and starts
      the first of those that wait; with none, nothing is in flight any more. */
  lemma FinishExactly(q: Queue, r: nat, reason: Option<string>)
    requires Inv(q) && r < |q.runs|
    ensures var after := Finish(q, r, reason);
            var s := q.runs[r].session;
            && FailureOf(q, after, s, if reason.Some? then reason else if s in q.failed then Some(q.failed[s]) else None)
            && after.parked == q.parked && (after.isProcessing <==> after.jobs != [])
            && after.runs == (if after.jobs == [] then [] else [Run(after.jobs[0].serial, after.jobs[0].session)])
            && (forall i :: 0 <= i < |after.jobs| ==> (after.jobs[i].status == Running <==> i == 0))
            && KeepsOthers(q.jobs, if after.jobs == [] then [] else after.jobs[0 := after.jobs[0].(status := Queued)], s)
  {
    var s := q.runs[r].session;
    FinishIs(q, r, reason);
    DropKeepsOthers(q.jobs, s);
    var left := DropSession(q.jobs, s);
    var after := Finish(q, r, reason);
    hide KeepsOthers, DropSession, Finish, Inv;
    if left != [] {
      assert after.jobs[0 := after.jobs[0].(status := Queued)] == left;
    }
  }

  lemma FinishIs(q: Queue, r: nat, reason: Option<string>)
    requires Inv(q) && r < |q.runs|
    ensures var s := q.runs[r].session;
            var left := DropSession(q.jobs, s);
            var after := Finish(q, r, reason);
            && (forall i :: 0 <= i < |left| ==> left[i].status == Queued)
            && after.failed == (if reason.None? then q.failed else q.failed[s := reason.value])
            && after.parked == q.parked && (after.isProcessing <==> left != [])
            && after.jobs == (if left == [] then [] else left[0 := left[0].(status := Running)])
            && after.runs == (if left == [] then [] else [Run(left[0].serial, left[0].session)])
  {
    var s := q.runs[r].session;
    var left := DropSession(q.jobs, s);
    DropFacts(q.jobs, s);
    forall i | 0 <= i < |left| ensures left[i].status == Queued
    {
      assert left[i] in left;
    }
    assert q.runs[..r] + q.runs[r + 1..] == [];
    hide DropSession, Inv;
    assert left != [] ==> FirstQueued(left) == 0;
  }
}
