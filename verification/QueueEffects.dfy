/** What each call and each settled await of the verification queue means for a hash
    (wevibe-dashboard/lib/verify-queue.ts). */
module QueueEffects {
  import opened Text
  import opened Lists
  import opened QueueInput
  import opened QueueState
  import opened QueueInvariant
  import opened QueueTexts
  import opened QueueRuns
  import opened Wrappers

  function JobHashes(jobs: seq<Job>): (r: seq<string>)
    ensures |r| == |jobs| && forall i :: 0 <= i < |r| ==> r[i] == jobs[i].Hash()
  {
    seq(|jobs|, i requires 0 <= i < |jobs| => jobs[i].Hash())
  }

  /** The failure and the cached input of a hash are as they were. */
  ghost predicate SameRecords(a: Queue, b: Queue, g: string) {
    && (a.failed.Has(g) <==> b.failed.Has(g)) && (a.failed.Has(g) ==> a.failed.table[g] == b.failed.table[g])
    && (a.cached.Has(g) <==> b.cached.Has(g)) && (a.cached.Has(g) ==> a.cached.table[g] == b.cached.table[g])
  }

  /** So are its place in a batch and its mark. */
  ghost predicate SameMarks(a: Queue, b: Queue, g: string) {
    && (Homed(a.batches, g) <==> Homed(b.batches, g)) && (Verified(a.batches, g) <==> Verified(b.batches, g))
    && (forall id :: HomeIs(a.batches, g, id) ==> HomeIs(b.batches, g, id))
  }

  // ----- processNext -----

  /** Starting changes statuses only. */
  lemma StartKeepsRecords(q: Queue, connected: bool)
    ensures var after := Start(q, connected);
            && JobHashes(after.jobs) == JobHashes(q.jobs) && after.batches == q.batches
            && after.failed == q.failed && after.cached == q.cached
            && |after.jobs| == |q.jobs|
            && forall i :: 0 <= i < |q.jobs| ==>
                 after.jobs[i].input == q.jobs[i].input && after.jobs[i].batchId == q.jobs[i].batchId
  {
    assert JobHashes(Start(q, connected).jobs) == JobHashes(q.jobs);
  }

  /** When connected and idle, the first waiting job runs, from its first await on; otherwise nothing changes. */
  lemma StartExactly(q: Queue, connected: bool, k: nat)
    requires k <= |q.jobs| && (k < |q.jobs| ==> q.jobs[k].status == Queued)
    requires forall i :: 0 <= i < k ==> q.jobs[i].status == Running
    ensures var after := Start(q, connected);
            if connected && !q.isProcessing && k < |q.jobs| then
              && after.isProcessing && |after.jobs| == |q.jobs|
              && after.jobs[k].status == Running && after.jobs[k].input == q.jobs[k].input
              && (forall i :: 0 <= i < |q.jobs| && i != k ==> after.jobs[i] == q.jobs[i])
              && after.runs == q.runs + [Run(q.jobs[k].serial, q.jobs[k].input, q.jobs[k].batchId, AtUpdate)]
            else after == q
  {
    var found := FindQueued(q.jobs);
    assert forall i :: 0 <= i < k ==> q.jobs[i].status != Queued;
    assert found >= k;
    if k < |q.jobs| {
      assert found == k;
    }
  }

  // ----- the end of a run -----

  lemma {:induction false} RemoveJobHashes(jobs: seq<Job>, h: string)
    ensures JobHashes(RemoveJob(jobs, h)) == Without(JobHashes(jobs), h)
  {
    if jobs != [] {
      RemoveJobHashes(jobs[1..], h);
      assert JobHashes(jobs)[1..] == JobHashes(jobs[1..]);
      if jobs[0].Hash() != h {
        assert JobHashes([jobs[0]] + RemoveJob(jobs[1..], h)) == [jobs[0].Hash()] + JobHashes(RemoveJob(jobs[1..], h));
      }
    }
  }

  lemma ListedHashes(jobs: seq<Job>, h: string)
    ensures HasJob(jobs, h) <==> h in JobHashes(jobs)
  {
    if HasJob(jobs, h) {
      var i :| 0 <= i < |jobs| && jobs[i].Hash() == h;
      assert JobHashes(jobs)[i] == h;
    }
  }

  /** The end of a run, good or bad: its job is off the list, and the next one may start. */
  lemma EndedJobs(q: Queue, ended: Queue, r: nat, connected: bool)
    requires r < |q.runs| && ended.jobs == RemoveJob(q.jobs, q.runs[r].Hash())
    ensures var after := Start(ended, connected);
            var h := q.runs[r].Hash();
            && !HasJob(after.jobs, h) && JobHashes(after.jobs) == Without(JobHashes(q.jobs), h)
            && after.batches == ended.batches && after.failed == ended.failed && after.cached == ended.cached
  {
    var h := q.runs[r].Hash();
    StartKeepsRecords(ended, connected);
    RemoveJobHashes(q.jobs, h);
    WithoutFacts(JobHashes(q.jobs), h);
    ListedHashes(Start(ended, connected).jobs, h);
  }

  lemma InFlightUnverified(q: Queue, r: nat)
    requires Inv(q) && r < |q.runs|
    ensures BatchesOk(q.batches) && !Verified(q.batches, q.runs[r].Hash())
  {
  }

  lemma FailRecords(q: Queue, r: nat, reason: string)
    requires r < |q.runs|
    ensures var after := Fail(q, r, reason);
            var h := q.runs[r].Hash();
            && after.failed.Has(h) && after.failed.table[h] == reason
            && after.cached.Has(h)
            && after.cached.table[h] == (if q.cached.Has(h) then q.cached.table[h] else q.runs[r].input)
            && after.batches == q.batches
            && forall g :: g != h ==> SameRecords(q, after, g)
  {
  }

  lemma SucceedRecords(q: Queue, r: nat, newId: string, now: real)
    requires r < |q.runs|
    ensures var after := Succeed(q, r, newId, now);
            var run := q.runs[r];
            && !after.failed.Has(run.Hash()) && !after.cached.Has(run.Hash())
            && after.batches == MarkVerified(q.batches, run.batchId, run.Hash(), newId, now)
            && forall g :: g != run.Hash() ==> SameRecords(q, after, g)
  {
  }

  lemma SameTables(a: Queue, b: Queue)
    requires a.failed == b.failed && a.cached == b.cached
    ensures forall q, g :: SameRecords(q, a, g) ==> SameRecords(q, b, g)
  {
  }

  /** After a throw at any await the hash has failed, for the reason thrown; its batch and mark are as they
      were, its input is there to retry from, and it has no job. Other hashes are left alone. */
  lemma ThrowFails(q: Queue, r: nat, message: Option<string>, newId: string, now: real, connected: bool)
    requires Inv(q) && r < |q.runs|
    ensures var after := Settle(q, r, Threw(message), newId, now, connected);
            var run := q.runs[r];
            var h := run.Hash();
            && after.failed.Has(h)
            && after.failed.table[h] == (if message.Some? && Trim(message.value) != "" then message.value
                                         else "Unknown verification error")
            && after.cached.Has(h)
            && after.cached.table[h] == (if q.cached.Has(h) then q.cached.table[h] else run.input)
            && after.batches == q.batches && !Verified(after.batches, h)
            && !HasJob(after.jobs, h) && JobHashes(after.jobs) == Without(JobHashes(q.jobs), h)
            && forall g :: g != h ==> SameRecords(q, after, g)
  {
    InFlightUnverified(q, r);
    var f := Fail(q, r, Reason(message));
    FailRecords(q, r, Reason(message));
    EndedJobs(q, f, r, connected);
    SameTables(f, Start(f, connected));
    hide Inv, HasJob, Verified, Start, RemoveJob, Trim, SameRecords, Fail;
    assert Settle(q, r, Threw(message), newId, now, connected) == Start(Fail(q, r, Reason(message)), connected);
  }

  /** After the verify await came back good the hash is verified, in the batch it was in or the one its run
      names, with no failure, no input kept and no job. Other hashes are left alone. */
  lemma GoodVerifies(q: Queue, r: nat, newId: string, now: real, connected: bool)
    requires Inv(q) && r < |q.runs| && UnusedId(q.batches, newId) && q.runs[r].at == AtVerify
    ensures var after := Settle(q, r, Good, newId, now, connected);
            var run := q.runs[r];
            var h := run.Hash();
            && Verified(after.batches, h)
            && (Homed(q.batches, h) ==> forall id :: HomeIs(q.batches, h, id) ==> HomeIs(after.batches, h, id))
            && (!Homed(q.batches, h) && run.batchId != "" ==> HomeIs(after.batches, h, run.batchId))
            && !after.failed.Has(h) && !after.cached.Has(h)
            && !HasJob(after.jobs, h) && JobHashes(after.jobs) == Without(JobHashes(q.jobs), h)
            && forall g :: g != h ==> SameRecords(q, after, g) && SameMarks(q, after, g)
  {
    InFlightUnverified(q, r);
    var run := q.runs[r];
    MarkVerifiedKeeps(q.batches, run.batchId, run.Hash(), newId, now);
    MarkedHome(q.batches, run.batchId, run.Hash(), newId, now);
    var s := Succeed(q, r, newId, now);
    SucceedRecords(q, r, newId, now);
    EndedJobs(q, s, r, connected);
    SameTables(s, Start(s, connected));
    hide Inv, HasJob, Verified, Homed, HomeIs, Start, RemoveJob, MarkVerified, BatchesOk, UnusedId, SameRecords, Succeed;
    assert Settle(q, r, Good, newId, now, connected) == Start(Succeed(q, r, newId, now), connected);
  }

  lemma MarkedHome(bs: seq<Batch>, batchId: string, h: string, newId: string, now: real)
    requires BatchesOk(bs) && UnusedId(bs, newId)
    ensures var after := MarkVerified(bs, batchId, h, newId, now);
            && (Homed(bs, h) ==> forall id :: HomeIs(bs, h, id) ==> HomeIs(after, h, id))
            && (!Homed(bs, h) && batchId != "" ==> HomeIs(after, h, batchId))
  {
    EnsureHashKeeps(bs, h, batchId, newId, now);
    var (homed, i) := EnsureHash(bs, h, batchId, newId, now);
    var after := MarkVerified(bs, batchId, h, newId, now);
    assert forall k :: 0 <= k < |after| ==> after[k].hashes == homed[k].hashes && after[k].batchId == homed[k].batchId;
    if Homed(bs, h) {
      assert homed == bs;
    }
  }

  /** A good answer before that only moves the run on, to the next await and the stage that shows. */
  lemma GoodMovesOn(q: Queue, r: nat, newId: string, now: real, connected: bool)
    requires Inv(q) && r < |q.runs| && q.runs[r].at != AtVerify
    ensures var after := Settle(q, r, Good, newId, now, connected);
            && after.batches == q.batches && after.failed == q.failed && after.cached == q.cached
            && JobHashes(after.jobs) == JobHashes(q.jobs) && after.isProcessing == q.isProcessing
            && |after.runs| == |q.runs| && after.runs[r].input == q.runs[r].input
            && after.runs[r].at == (if q.runs[r].at == AtUpdate then AtEmbed else AtVerify)
            && forall i :: 0 <= i < |q.jobs| ==>
                 && after.jobs[i].status == q.jobs[i].status
                 && after.jobs[i].stage == (if q.jobs[i].status == Running
                                            then (if q.runs[r].at == AtUpdate then EmbeddingStage else VerifyingStage)
                                            else NoStage)
  {
    assert JobHashes(Settle(q, r, Good, newId, now, connected).jobs) == JobHashes(q.jobs);
  }

  // ----- enqueue -----

  /** The hashes taken are those given and not blocked. */
  lemma {:induction false} AcceptedHashes(inputs: seq<Input>, blocked: set<string>)
    ensures forall h :: h in HashesOf(Accepted(inputs, blocked)) <==> h in HashesOf(inputs) && h !in blocked
  {
    if inputs != [] {
      var h := inputs[0].submissionHash;
      var more := if h in blocked then blocked else blocked + {h};
      AcceptedHashes(inputs[1..], more);
      var rest := Accepted(inputs[1..], more);
      assert HashesOf(inputs) == [h] + HashesOf(inputs[1..]);
      if h !in blocked {
        assert HashesOf([inputs[0]] + rest) == [h] + HashesOf(rest);
      }
    }
  }

  ghost predicate FirstOfHash(inputs: seq<Input>, k: nat) {
    && k < |inputs|
    && forall i :: 0 <= i < k ==> inputs[i].submissionHash != inputs[k].submissionHash
  }

  /** The first input given with a hash not blocked is the one taken. */
  lemma {:induction false} AcceptedFirst(inputs: seq<Input>, blocked: set<string>, k: nat)
    requires FirstOfHash(inputs, k) && inputs[k].submissionHash !in blocked
    ensures inputs[k] in Accepted(inputs, blocked)
  {
    if k > 0 {
      var p := k - 1;
      var h := inputs[0].submissionHash;
      assert forall i :: 0 <= i < p ==> inputs[1..][i] == inputs[i + 1];
      AcceptedFirst(inputs[1..], if h in blocked then blocked else blocked + {h}, p);
    }
  }

  ghost predicate Before<T>(s: seq<T>, x: T, y: T) {
    exists i, j :: 0 <= i < j < |s| && s[i] == x && s[j] == y
  }

  lemma BeforeCons<T>(s: seq<T>, head: T, x: T, y: T)
    requires Before(s, x, y) || (head == x && y in s)
    ensures Before([head] + s, x, y)
  {
    var all := [head] + s;
    if Before(s, x, y) {
      var i, j :| 0 <= i < j < |s| && s[i] == x && s[j] == y;
      assert all[i + 1] == x && all[j + 1] == y;
    } else {
      var j :| 0 <= j < |s| && s[j] == y;
      assert all[0] == x && all[j + 1] == y;
    }
  }

  lemma {:induction false} AcceptedInOrder(inputs: seq<Input>, blocked: set<string>, k: nat, l: nat)
    requires FirstOfHash(inputs, k) && FirstOfHash(inputs, l) && k < l
    requires inputs[k].submissionHash !in blocked && inputs[l].submissionHash !in blocked
    ensures Before(HashesOf(Accepted(inputs, blocked)), inputs[k].submissionHash, inputs[l].submissionHash)
  {
    var h := inputs[0].submissionHash;
    var more := if h in blocked then blocked else blocked + {h};
    var rest := Accepted(inputs[1..], more);
    var p := l - 1;
    assert forall i :: 0 <= i < p ==> inputs[1..][i] == inputs[i + 1];
    if k == 0 {
      AcceptedFirst(inputs[1..], more, p);
      var at :| 0 <= at < |rest| && rest[at] == inputs[l];
      assert HashesOf(rest)[at] == inputs[l].submissionHash;
    } else {
      var k1 := k - 1;
      AcceptedInOrder(inputs[1..], more, k1, p);
    }
    if h !in blocked {
      assert HashesOf([inputs[0]] + rest) == [h] + HashesOf(rest);
      BeforeCons(HashesOf(rest), h, inputs[k].submissionHash, inputs[l].submissionHash);
    }
  }

  function NewJobs(inputs: seq<Input>, batchId: string, serial: nat): seq<Job> {
    if inputs == [] then []
    else [Job(serial, inputs[0], batchId, Queued, NoStage)] + NewJobs(inputs[1..], batchId, serial + 1)
  }

  lemma ConsHashes(job: Job, jobs: seq<Job>)
    ensures JobHashes([job] + jobs) == [job.Hash()] + JobHashes(jobs)
  {
  }

  lemma {:induction false} NewJobsHashes(inputs: seq<Input>, batchId: string, serial: nat)
    ensures JobHashes(NewJobs(inputs, batchId, serial)) == HashesOf(inputs)
  {
    if inputs == [] {
      assert HashesOf(inputs) == [];
    } else {
      NewJobsHashes(inputs[1..], batchId, serial + 1);
      ConsHashes(Job(serial, inputs[0], batchId, Queued, NoStage), NewJobs(inputs[1..], batchId, serial + 1));
      assert HashesOf(inputs) == [inputs[0].submissionHash] + HashesOf(inputs[1..]);
    }
  }

  lemma {:induction false} NewJobsFrom(inputs: seq<Input>, batchId: string, serial: nat)
    ensures forall j :: j in NewJobs(inputs, batchId, serial) ==> j.input in inputs && j.batchId == batchId
  {
    if inputs != [] {
      NewJobsFrom(inputs[1..], batchId, serial + 1);
    }
  }

  lemma {:induction false} PushAllJobs(q: Queue, inputs: seq<Input>, batchId: string)
    ensures PushAll(q, inputs, batchId).jobs == q.jobs + NewJobs(inputs, batchId, q.nextSerial)
    ensures PushAll(q, inputs, batchId).batches == q.batches
    decreases |inputs|
  {
    if inputs != [] {
      PushAllJobs(PushFresh(q, inputs[0], batchId), inputs[1..], batchId);
    }
  }

  lemma {:induction false} PushAllRecords(q: Queue, inputs: seq<Input>, batchId: string)
    requires NoDup(HashesOf(inputs))
    ensures var after := PushAll(q, inputs, batchId);
            && (forall i :: i in inputs ==>
                  after.cached.Has(i.submissionHash) && after.cached.table[i.submissionHash] == i
                  && !after.failed.Has(i.submissionHash))
            && (forall g :: g !in HashesOf(inputs) ==> SameRecords(q, after, g))
    decreases |inputs|
  {
    if inputs != [] {
      var next := PushFresh(q, inputs[0], batchId);
      var rest := inputs[1..];
      var after := PushAll(q, inputs, batchId);
      assert HashesOf(rest) == HashesOf(inputs)[1..];
      assert inputs == [inputs[0]] + rest;
      NoDupHead(HashesOf(inputs));
      PushAllRecords(next, rest, batchId);
      assert SameRecords(next, after, inputs[0].submissionHash);
      forall g | g !in HashesOf(inputs) ensures SameRecords(q, after, g)
      {
        assert HashesOf(inputs)[0] != g;
        assert SameRecords(next, after, g);
      }
    }
  }

  lemma BlockedHash(q: Queue, h: string)
    ensures h in Blocked(q) <==> HasJob(q.jobs, h) || Homed(q.batches, h)
  {
    if HasJob(q.jobs, h) {
      var i :| 0 <= i < |q.jobs| && q.jobs[i].Hash() == h;
      assert q.jobs[i] in q.jobs;
    }
    if Homed(q.batches, h) {
      var i :| 0 <= i < |q.batches| && h in q.batches[i].hashes;
      assert q.batches[i] in q.batches;
    }
  }

  /** The queue with `listed` in a new batch, and a job at the end for each of them in that order, its input
      kept to retry from and any failure cleared. */
  ghost predicate NewlyListed(q: Queue, after: Queue, listed: seq<string>, batchId: string, now: real) {
    && after.batches == q.batches + [Batch(batchId, now, listed, [])]
    && JobHashes(after.jobs) == JobHashes(q.jobs) + listed
    && (forall i :: 0 <= i < |q.jobs| ==>
          after.jobs[i].input == q.jobs[i].input && after.jobs[i].batchId == q.jobs[i].batchId)
    && (forall i :: |q.jobs| <= i < |after.jobs| ==>
          var h := after.jobs[i].Hash();
          && after.jobs[i].batchId == batchId && !after.failed.Has(h)
          && after.cached.Has(h) && after.cached.table[h] == after.jobs[i].input)
    && forall g :: g !in listed ==> SameRecords(q, after, g)
  }

  ghost predicate Known(q: Queue, h: string) {
    HasJob(q.jobs, h) || Homed(q.batches, h)
  }

  lemma PushedJobs(q: Queue, pushed: Queue, taken: seq<Input>, batchId: string)
    requires pushed.jobs == q.jobs + NewJobs(taken, batchId, q.nextSerial)
    ensures JobHashes(pushed.jobs) == JobHashes(q.jobs) + HashesOf(taken)
    ensures forall i :: 0 <= i < |q.jobs| ==> pushed.jobs[i] == q.jobs[i]
    ensures forall i :: |q.jobs| <= i < |pushed.jobs| ==> pushed.jobs[i].input in taken && pushed.jobs[i].batchId == batchId
  {
    NewJobsHashes(taken, batchId, q.nextSerial);
    NewJobsFrom(taken, batchId, q.nextSerial);
    var added := NewJobs(taken, batchId, q.nextSerial);
    hide NewJobs;
    assert JobHashes(pushed.jobs) == JobHashes(q.jobs) + JobHashes(added);
    forall i | |q.jobs| <= i < |pushed.jobs| ensures pushed.jobs[i] in added
    {
      var p := i - |q.jobs|;
      assert pushed.jobs[i] == added[p];
    }
  }

  lemma RecordsBut(q: Queue, a: Queue, after: Queue, listed: seq<string>)
    requires a.failed == q.failed && a.cached == q.cached
    requires forall g :: g !in listed ==> SameRecords(a, after, g)
    ensures forall g :: g !in listed ==> SameRecords(q, after, g)
  {
    forall g | g !in listed ensures SameRecords(q, after, g)
    {
      assert SameRecords(a, after, g);
    }
  }

  lemma JobsReady(pushed: Queue, after: Queue, n: nat, taken: seq<Input>)
    requires |after.jobs| == |pushed.jobs| && after.failed == pushed.failed && after.cached == pushed.cached
    requires forall i :: n <= i < |pushed.jobs| ==> pushed.jobs[i].input in taken && after.jobs[i].input == pushed.jobs[i].input
    requires forall i :: i in taken ==>
               pushed.cached.Has(i.submissionHash) && pushed.cached.table[i.submissionHash] == i
               && !pushed.failed.Has(i.submissionHash)
    ensures forall i :: n <= i < |after.jobs| ==>
              var h := after.jobs[i].Hash();
              !after.failed.Has(h) && after.cached.Has(h) && after.cached.table[h] == after.jobs[i].input
  {
  }

  lemma PushedLists(q: Queue, taken: seq<Input>, batchId: string, now: real, connected: bool)
    requires NoDup(HashesOf(taken))
    ensures var homed := q.(batches := q.batches + [Batch(batchId, now, HashesOf(taken), [])]);
            var after := Start(PushAll(homed, taken, batchId), connected);
            && NewlyListed(q, after, HashesOf(taken), batchId, now)
            && forall i :: i in taken ==>
                 after.cached.Has(i.submissionHash) && after.cached.table[i.submissionHash] == i
  {
    var homed := q.(batches := q.batches + [Batch(batchId, now, HashesOf(taken), [])]);
    PushAllJobs(homed, taken, batchId);
    PushAllRecords(homed, taken, batchId);
    var pushed := PushAll(homed, taken, batchId);
    PushedJobs(homed, pushed, taken, batchId);
    StartKeepsRecords(pushed, connected);
    var after := Start(pushed, connected);
    RecordsBut(q, homed, pushed, HashesOf(taken));
    SameTables(pushed, after);
    hide SameRecords;
    JobsReady(pushed, after, |q.jobs|, taken);
    hide Start, PushAll, NewJobs, NoDup, HashesOf;
  }

  /** An enqueue lists, in one new batch, the hashes given that have neither a job nor a batch, each with the
      first input given for it. With no such hash nothing changes, and other hashes never do. */
  lemma EnqueueExactly(q: Queue, raw: seq<Json>, coerce: Coercion, batchId: string, now: real, connected: bool)
    ensures var parsed := ParseAll(raw, coerce);
            var after := Enqueue(q, raw, coerce, batchId, now, connected);
            if forall h :: h in HashesOf(parsed) ==> Known(q, h) then after == q
            else
              && |after.batches| == |q.batches| + 1
              && var listed := after.batches[|q.batches|].hashes;
                 && NewlyListed(q, after, listed, batchId, now)
                 && NoDup(listed) && (forall h :: h in listed <==> h in HashesOf(parsed) && !Known(q, h))
                 && forall k: nat :: FirstOfHash(parsed, k) && !Known(q, parsed[k].submissionHash)
                      ==> after.cached.Has(parsed[k].submissionHash)
                          && after.cached.table[parsed[k].submissionHash] == parsed[k]
  {
    var parsed := ParseAll(raw, coerce);
    var taken := Accepted(parsed, Blocked(q));
    AcceptedFacts(parsed, Blocked(q));
    AcceptedHashes(parsed, Blocked(q));
    forall k: nat | FirstOfHash(parsed, k) && parsed[k].submissionHash !in Blocked(q) ensures parsed[k] in taken
    {
      AcceptedFirst(parsed, Blocked(q), k);
    }
    forall h ensures h in Blocked(q) <==> Known(q, h)
    {
      BlockedHash(q, h);
    }
    hide Accepted, Known, Blocked, NewlyListed;
    if taken == [] {
      assert HashesOf(taken) == [];
    } else {
      assert HashesOf(taken)[0] in HashesOf(taken);
      PushedLists(q, taken, batchId, now, connected);
    }
  }

  /** In the order in which those first inputs were given. */
  lemma EnqueueInOrder(q: Queue, raw: seq<Json>, coerce: Coercion, batchId: string, now: real, connected: bool, k: nat, l: nat)
    requires var parsed := ParseAll(raw, coerce);
             && FirstOfHash(parsed, k) && FirstOfHash(parsed, l) && k < l
             && !Known(q, parsed[k].submissionHash) && !Known(q, parsed[l].submissionHash)
    ensures var parsed := ParseAll(raw, coerce);
            var after := Enqueue(q, raw, coerce, batchId, now, connected);
            && |after.batches| == |q.batches| + 1
            && Before(after.batches[|q.batches|].hashes, parsed[k].submissionHash, parsed[l].submissionHash)
  {
    var parsed := ParseAll(raw, coerce);
    BlockedHash(q, parsed[k].submissionHash);
    BlockedHash(q, parsed[l].submissionHash);
    AcceptedInOrder(parsed, Blocked(q), k, l);
    var taken := Accepted(parsed, Blocked(q));
    AcceptedFacts(parsed, Blocked(q));
    hide Accepted, Before, Known, Blocked;
    AcceptedFirst(parsed, Blocked(q), k);
    PushedLists(q, taken, batchId, now, connected);
  }

  // ----- retry, remove, reconcile -----

  lemma SameHomes(a: seq<Batch>, b: seq<Batch>)
    requires |a| == |b| && forall k :: 0 <= k < |a| ==> a[k].hashes == b[k].hashes && a[k].batchId == b[k].batchId
    ensures forall g :: Homed(a, g) ==> Homed(b, g)
    ensures forall g, id :: HomeIs(a, g, id) ==> HomeIs(b, g, id)
  {
    forall g | Homed(a, g) ensures Homed(b, g)
    {
      var k :| 0 <= k < |a| && g in a[k].hashes;
      assert g in b[k].hashes;
    }
  }

  lemma SameMarksBut(a: seq<Batch>, b: seq<Batch>, h: string)
    requires |a| == |b| && forall k, g :: 0 <= k < |a| && g != h && g in a[k].verified ==> g in b[k].verified
    ensures forall g :: g != h && Verified(a, g) ==> Verified(b, g)
  {
    forall g | g != h && Verified(a, g) ensures Verified(b, g)
    {
      var k :| 0 <= k < |a| && g in a[k].verified;
      assert g in b[k].verified;
    }
  }

  /** Taking a hash's mark away in the batch that lists it. */
  lemma UnmarkExactly(bs: seq<Batch>, i: nat, h: string)
    requires BatchesOk(bs) && i < |bs| && h in bs[i].hashes
    ensures var r := bs[i := bs[i].(verified := Without(bs[i].verified, h))];
            && Homed(r, h) && !Verified(r, h) && HomeIs(r, h, bs[i].batchId) && HomeIs(bs, h, bs[i].batchId)
            && (forall g :: Homed(r, g) <==> Homed(bs, g))
            && (forall g, id :: HomeIs(bs, g, id) ==> HomeIs(r, g, id))
            && (forall g :: g != h ==> (Verified(r, g) <==> Verified(bs, g)))
  {
    var r := bs[i := bs[i].(verified := Without(bs[i].verified, h))];
    UnverifyKeeps(bs, i, h);
    WithoutFacts(bs[i].verified, h);
    assert Homed(bs, h);
    hide BatchesOk, Shrunk;
    SameHomes(bs, r);
    SameHomes(r, bs);
    SameMarksBut(bs, r, h);
    SameMarksBut(r, bs, h);
  }

  lemma PushJobRecords(q: Queue, input: Input, batchId: string, connected: bool)
    ensures var after := Start(PushJob(q, input, batchId), connected);
            && JobHashes(after.jobs) == JobHashes(q.jobs) + [input.submissionHash]
            && after.jobs[|q.jobs|].input == input && after.jobs[|q.jobs|].batchId == batchId
            && after.batches == q.batches && after.failed == q.failed && after.cached == q.cached
  {
    var pushed := PushJob(q, input, batchId);
    StartKeepsRecords(pushed, connected);
    assert JobHashes(pushed.jobs) == JobHashes(q.jobs) + [input.submissionHash];
  }

  /** A retry clears the failure, and puts the hash back at the end of the job list when it is not listed and
      an input is kept for it: in the batch it has, or a new one, and unverified there. */
  lemma RetryExactly(q: Queue, hash: string, newId: string, now: real, connected: bool)
    requires Inv(q) && UnusedId(q.batches, newId) && Trim(hash) != ""
    ensures var h := Trim(hash);
            var after := Retry(q, hash, newId, now, connected);
            && !after.failed.Has(h) && after.cached == q.cached
            && (forall g :: g != h ==> SameRecords(q, after, g) && SameMarks(q, after, g))
            && if !HasJob(q.jobs, h) && q.cached.Has(h) then
                 && JobHashes(after.jobs) == JobHashes(q.jobs) + [h]
                 && after.jobs[|q.jobs|].input == q.cached.table[h]
                 && Homed(after.batches, h) && !Verified(after.batches, h)
                 && (if Homed(q.batches, h) then HomeIs(q.batches, h, after.jobs[|q.jobs|].batchId)
                     else after.jobs[|q.jobs|].batchId == newId)
                 && HomeIs(after.batches, h, after.jobs[|q.jobs|].batchId)
               else
                 JobHashes(after.jobs) == JobHashes(q.jobs) && after.batches == q.batches
  {
    var h := Trim(hash);
    var c := q.(failed := q.failed.Delete(h));
    if HasJob(q.jobs, h) || !q.cached.Has(h) {
      StartKeepsRecords(c, connected);
    } else {
      RetryRequeues(q, hash, newId, now, connected);
    }
  }

  lemma FailureCleared(q: Queue, after: Queue, h: string)
    requires after.failed == q.failed.Delete(h) && after.cached == q.cached
    ensures !after.failed.Has(h) && forall g :: g != h ==> SameRecords(q, after, g)
  {
  }

  lemma RetryRequeues(q: Queue, hash: string, newId: string, now: real, connected: bool)
    requires Inv(q) && UnusedId(q.batches, newId) && Trim(hash) != ""
    requires !HasJob(q.jobs, Trim(hash)) && q.cached.Has(Trim(hash))
    ensures var h := Trim(hash);
            var after := Retry(q, hash, newId, now, connected);
            && !after.failed.Has(h) && after.cached == q.cached
            && JobHashes(after.jobs) == JobHashes(q.jobs) + [h]
            && after.jobs[|q.jobs|].input == q.cached.table[h]
            && Homed(after.batches, h) && !Verified(after.batches, h)
            && (if Homed(q.batches, h) then HomeIs(q.batches, h, after.jobs[|q.jobs|].batchId)
                else after.jobs[|q.jobs|].batchId == newId)
            && HomeIs(after.batches, h, after.jobs[|q.jobs|].batchId)
            && forall g :: g != h ==> SameRecords(q, after, g) && SameMarks(q, after, g)
  {
    var h := Trim(hash);
    assert q.cached.table[h].submissionHash == h && BatchesOk(q.batches);
    hide Inv, HasJob, Trim, Start, PushJob, Homed, Verified, HomeIs, BatchesOk, UnusedId, SameRecords;
    var c := q.(failed := q.failed.Delete(h));
    var i := FindHash(q.batches, h);
    var b := if i < |q.batches| then q.batches[i] else Batch(newId, now, [h], []);
    var bs := if i < |q.batches| then q.batches[i := b.(verified := Without(b.verified, h))] else q.batches + [b];
    if i < |q.batches| {
      UnmarkExactly(q.batches, i, h);
    } else {
      RetryUnlisted(q, h, newId, now);
    }
    PushJobRecords(c.(batches := bs), q.cached.table[h], b.batchId, connected);
    FailureCleared(q, Start(PushJob(c.(batches := bs), q.cached.table[h], b.batchId), connected), h);
    assert Retry(q, hash, newId, now, connected) == Start(PushJob(c.(batches := bs), q.cached.table[h], b.batchId), connected);
  }

  lemma RetryUnlisted(q: Queue, h: string, newId: string, now: real)
    requires BatchesOk(q.batches) && UnusedId(q.batches, newId) && FindHash(q.batches, h) == |q.batches|
    ensures var bs := q.batches + [Batch(newId, now, [h], [])];
            && !Homed(q.batches, h) && Homed(bs, h) && !Verified(bs, h) && HomeIs(bs, h, newId)
            && (forall g :: g != h ==> (Homed(bs, g) <==> Homed(q.batches, g)) && (Verified(bs, g) <==> Verified(q.batches, g)))
            && (forall g, id :: g != h && HomeIs(q.batches, g, id) ==> HomeIs(bs, g, id))
  {
    AddBatch(q.batches, Batch(newId, now, [h], []));
  }

  /** `b` lists `h` and, `h` aside, nothing it has not verified. */
  ghost predicate FallsWith(b: Batch, h: string) {
    h in b.hashes && forall g :: g in b.hashes && g != h ==> g in b.verified
  }

  /** Some batch that does not fall with `h` lists `g`, or marks it. */
  ghost predicate HomedApart(bs: seq<Batch>, g: string, h: string) {
    exists i :: 0 <= i < |bs| && g in bs[i].hashes && !FallsWith(bs[i], h)
  }

  ghost predicate VerifiedApart(bs: seq<Batch>, g: string, h: string) {
    exists i :: 0 <= i < |bs| && g in bs[i].verified && !FallsWith(bs[i], h)
  }

  lemma ApartCons(bs: seq<Batch>, g: string, h: string)
    requires bs != []
    ensures HomedApart(bs, g, h) <==> (g in bs[0].hashes && !FallsWith(bs[0], h)) || HomedApart(bs[1..], g, h)
    ensures VerifiedApart(bs, g, h) <==> (g in bs[0].verified && !FallsWith(bs[0], h)) || VerifiedApart(bs[1..], g, h)
  {
    if i :| 0 <= i < |bs[1..]| && g in bs[1..][i].hashes && !FallsWith(bs[1..][i], h) {
      assert bs[i + 1] == bs[1..][i];
    }
    if i :| 0 <= i < |bs[1..]| && g in bs[1..][i].verified && !FallsWith(bs[1..][i], h) {
      assert bs[i + 1] == bs[1..][i];
    }
  }

  /** The batch left of `b` without `h`, and whether it is dropped. */
  lemma FallsExactly(b: Batch, h: string)
    ensures h in b.hashes ==> (Concluded(DropFromBatch(b, h)) <==> FallsWith(b, h))
    ensures h !in DropFromBatch(b, h).hashes && h !in DropFromBatch(b, h).verified
    ensures forall g :: g != h ==> (g in DropFromBatch(b, h).hashes <==> g in b.hashes)
    ensures forall g :: g != h ==> (g in DropFromBatch(b, h).verified <==> g in b.verified)
  {
    WithoutFacts(b.hashes, h);
    WithoutFacts(b.verified, h);
  }

  lemma {:induction false} RemoveHashExactly(bs: seq<Batch>, h: string)
    requires BatchesOk(bs)
    ensures var after := RemoveHash(bs, h);
            && !Homed(after, h) && !Verified(after, h)
            && (forall g :: g != h ==> (Homed(after, g) <==> HomedApart(bs, g, h)))
            && (forall g :: g != h ==> (Verified(after, g) <==> VerifiedApart(bs, g, h)))
  {
    if bs != [] {
      var rest := RemoveHash(bs[1..], h);
      OkTail(bs);
      RemoveHashExactly(bs[1..], h);
      FallsExactly(bs[0], h);
      assert h in bs[0].verified ==> h in bs[0].hashes;
      var kept := if h in bs[0].hashes then DropFromBatch(bs[0], h) else bs[0];
      assert RemoveHash(bs, h) == if FallsWith(bs[0], h) then rest else [kept] + rest;
      hide BatchesOk, Homed, Verified, HomedApart, VerifiedApart, FallsWith, RemoveHash, DropFromBatch;
      HomedCons(kept, rest, h);
      forall g | g != h
        ensures Homed(RemoveHash(bs, h), g) <==> HomedApart(bs, g, h)
        ensures Verified(RemoveHash(bs, h), g) <==> VerifiedApart(bs, g, h)
      {
        HomedCons(kept, rest, g);
        ApartCons(bs, g, h);
      }
    }
  }

  lemma HomedCons(b: Batch, bs: seq<Batch>, g: string)
    ensures Homed([b] + bs, g) <==> g in b.hashes || Homed(bs, g)
    ensures Verified([b] + bs, g) <==> g in b.verified || Verified(bs, g)
  {
    var all := [b] + bs;
    assert all[0] == b;
    if Homed(bs, g) {
      var i :| 0 <= i < |bs| && g in bs[i].hashes;
      assert all[i + 1] == bs[i];
    }
    if Verified(bs, g) {
      var i :| 0 <= i < |bs| && g in bs[i].verified;
      assert all[i + 1] == bs[i];
    }
  }

  lemma RemovedRecords(q: Queue, after: Queue, h: string)
    requires after.failed == q.failed.Delete(h) && after.cached == q.cached.Delete(h)
    ensures !after.failed.Has(h) && !after.cached.Has(h) && forall g :: g != h ==> SameRecords(q, after, g)
  {
  }

  /** Removing a hash takes its job, failure, input and place in a batch; a batch left with nothing but verified
      hashes goes with it. A run already in flight goes on. */
  lemma RemoveExactly(q: Queue, hash: string)
    requires Inv(q) && Trim(hash) != ""
    ensures var h := Trim(hash);
            var after := Remove(q, hash);
            && JobHashes(after.jobs) == Without(JobHashes(q.jobs), h) && !HasJob(after.jobs, h)
            && !after.failed.Has(h) && !after.cached.Has(h) && !Homed(after.batches, h) && !Verified(after.batches, h)
            && after.runs == q.runs && after.isProcessing == q.isProcessing
            && (forall g :: g != h ==> SameRecords(q, after, g))
            && (forall g :: g != h ==> (Homed(after.batches, g) <==> HomedApart(q.batches, g, h)))
            && (forall g :: g != h ==> (Verified(after.batches, g) <==> VerifiedApart(q.batches, g, h)))
  {
    var h := Trim(hash);
    RemoveHashExactly(q.batches, h);
    RemoveJobHashes(q.jobs, h);
    WithoutFacts(JobHashes(q.jobs), h);
    ListedHashes(RemoveJob(q.jobs, h), h);
    hide Trim, Inv, RemoveHash, RemoveJob, Homed, Verified, HasJob, HomedApart, VerifiedApart, JobHashes, SameRecords;
    RemovedRecords(q, Remove(q, hash), h);
  }

  /** Reconciling drops just the batches all of whose hashes are, trimmed, among those given, unless none given
      is more than blanks. */
  lemma ReconcileExactly(q: Queue, hashes: seq<string>)
    requires Inv(q)
    ensures var after := Reconcile(q, hashes);
            && after.jobs == q.jobs && after.runs == q.runs && after.failed == q.failed && after.cached == q.cached
            && forall b :: b in after.batches <==>
                 && b in q.batches
                 && ((forall k :: 0 <= k < |hashes| ==> Trim(hashes[k]) == "")
                     || exists h :: h in b.hashes && (h == "" || forall k :: 0 <= k < |hashes| ==> Trim(hashes[k]) != h))
  {
    DropSettledKeeps(q.batches, PendingSet(hashes));
    var pending := PendingSet(hashes);
    forall h ensures h in pending <==> h != "" && exists k :: 0 <= k < |hashes| && Trim(hashes[k]) == h
    {
      if h in pending {
        var x :| x in hashes && Trim(x) != "" && Trim(x) == h;
      }
    }
    hide Trim, Inv, DropSettled, PendingSet;
    if pending == {} {
      assert forall k :: 0 <= k < |hashes| && Trim(hashes[k]) != "" ==> Trim(hashes[k]) in pending;
    } else {
      var h :| h in pending;
    }
  }

  // ----- verified hashes over whole runs -----

  /** The verify await of a run for `h` comes back good. */
  ghost predicate GoodFor(q: Queue, e: Event, h: string)
    requires e.Settled? ==> e.r < |q.runs|
  {
    e.Settled? && e.reply.Good? && q.runs[e.r].at == AtVerify && q.runs[e.r].Hash() == h
  }

  /** The batches marking `h` list nothing but hashes that are, trimmed, among those given. */
  ghost predicate AllGiven(q: Queue, hashes: seq<string>, h: string) {
    forall b :: b in q.batches && h in b.verified ==>
      forall g :: g in b.hashes ==> g != "" && exists k :: 0 <= k < |hashes| && Trim(hashes[k]) == g
  }

  /** The call takes the mark of `h` away: it lists `h` again, removes it or all its batch waited for, or
      reports its batch settled. */
  ghost predicate Unmarks(q: Queue, e: Event, h: string) {
    match e
    case CallRetry(hash, _, _, _) => h != "" && Trim(hash) == h && !HasJob(q.jobs, h) && q.cached.Has(h)
    case CallRemove(hash) => Trim(hash) != "" && (Trim(hash) == h || !VerifiedApart(q.batches, h, Trim(hash)))
    case CallReconcile(hashes) => (exists k :: 0 <= k < |hashes| && Trim(hashes[k]) != "") && AllGiven(q, hashes, h)
    case _ => false
  }

  lemma VerifiedIn(bs: seq<Batch>, h: string)
    ensures Verified(bs, h) <==> exists b :: b in bs && h in b.verified
  {
    if b :| b in bs && h in b.verified {
      var i :| 0 <= i < |bs| && bs[i] == b;
      assert h in bs[i].verified;
    }
    if i :| 0 <= i < |bs| && h in bs[i].verified {
      assert bs[i] in bs;
    }
  }

  lemma EnqueueMarks(q: Queue, raw: seq<Json>, coerce: Coercion, batchId: string, now: real, connected: bool, h: string)
    ensures Verified(Enqueue(q, raw, coerce, batchId, now, connected).batches, h) <==> Verified(q.batches, h)
  {
    var after := Enqueue(q, raw, coerce, batchId, now, connected);
    EnqueueExactly(q, raw, coerce, batchId, now, connected);
    hide Enqueue;
    VerifiedIn(q.batches, h);
    VerifiedIn(after.batches, h);
    if after != q {
      assert after.batches == q.batches + [after.batches[|q.batches|]];
    }
  }

  lemma ReconcileMarks(q: Queue, hashes: seq<string>, h: string)
    requires Inv(q)
    ensures Verified(Reconcile(q, hashes).batches, h)
            <==> Verified(q.batches, h) && !Unmarks(q, CallReconcile(hashes), h)
  {
    ReconcileExactly(q, hashes);
    hide Reconcile, Inv, Trim;
    VerifiedIn(q.batches, h);
    VerifiedIn(Reconcile(q, hashes).batches, h);
  }

  lemma SettleMarks(q: Queue, r: nat, reply: Reply, newId: string, now: real, connected: bool, h: string)
    requires Inv(q) && r < |q.runs| && UnusedId(q.batches, newId)
    ensures Verified(Settle(q, r, reply, newId, now, connected).batches, h)
            <==> (reply.Good? && q.runs[r].at == AtVerify && q.runs[r].Hash() == h) || Verified(q.batches, h)
  {
    if reply.Threw? {
      ThrowFails(q, r, reply.message, newId, now, connected);
    } else if q.runs[r].at == AtVerify {
      GoodVerifies(q, r, newId, now, connected);
      assert h != q.runs[r].Hash() ==> SameMarks(q, Settle(q, r, Good, newId, now, connected), h);
    } else {
      GoodMovesOn(q, r, newId, now, connected);
    }
  }

  lemma VerifiedStep(q: Queue, e: Event, coerce: Coercion, h: string)
    requires Inv(q) && Legal(q, e)
    ensures Verified(Step(q, e, coerce).batches, h)
            <==> GoodFor(q, e, h) || (Verified(q.batches, h) && !Unmarks(q, e, h))
  {
    hide Inv, Verified, Trim;
    match e
    case CallEnqueue(raw, newId, now, connected) => EnqueueMarks(q, raw, coerce, newId, now, connected, h);
    case CallResume(connected) => StartKeepsRecords(q, connected);
    case CallRetry(hash, newId, now, connected) =>
      if Trim(hash) != "" {
        RetryExactly(q, hash, newId, now, connected);
        assert h != Trim(hash) ==> SameMarks(q, Retry(q, hash, newId, now, connected), h);
      }
    case CallRemove(hash) =>
      if Trim(hash) != "" {
        RemoveExactly(q, hash);
        VerifiedApartIsVerified(q.batches, h, Trim(hash));
      }
    case CallReconcile(hashes) => ReconcileMarks(q, hashes, h);
    case Settled(r, reply, newId, now, connected) => SettleMarks(q, r, reply, newId, now, connected, h);
  }

  lemma VerifiedApartIsVerified(bs: seq<Batch>, g: string, h: string)
    ensures VerifiedApart(bs, g, h) ==> Verified(bs, g)
  {
  }

  ghost predicate Undisturbed(q: Queue, es: seq<Event>, coerce: Coercion, h: string)
    requires LegalRun(q, es, coerce)
    decreases |es|
  {
    es != [] ==> !Unmarks(q, es[0], h) && Undisturbed(Step(q, es[0], coerce), es[1..], coerce, h)
  }

  /** Some verify await for `h` came back good, and no later call took the mark away. */
  ghost predicate Earned(q: Queue, es: seq<Event>, coerce: Coercion, h: string)
    requires LegalRun(q, es, coerce)
    decreases |es|
  {
    && es != []
    && var next := Step(q, es[0], coerce);
       (GoodFor(q, es[0], h) && Undisturbed(next, es[1..], coerce, h)) || Earned(next, es[1..], coerce, h)
  }

  lemma {:induction false} VerifiedAfter(q: Queue, es: seq<Event>, coerce: Coercion, h: string)
    requires Sound(q) && LegalRun(q, es, coerce)
    ensures Verified(Play(q, es, coerce).batches, h)
            <==> Earned(q, es, coerce, h) || (Verified(q.batches, h) && Undisturbed(q, es, coerce, h))
    decreases |es|
  {
    if es != [] {
      var next := Step(q, es[0], coerce);
      StepKeepsInv(q, es[0], coerce);
      StepKeepsTexts(q, es[0], coerce);
      VerifiedStep(q, es[0], coerce, h);
      hide Sound, Step, Legal, Verified, Unmarks;
      VerifiedAfter(next, es[1..], coerce, h);
    }
  }

  /** Over any legal run from the empty queue, a hash ends verified exactly when a verify await of one of its
      runs came back good and no call since took the mark away. */
  lemma VerifiedExactly(es: seq<Event>, coerce: Coercion, h: string)
    requires LegalRun(EmptyQueue(), es, coerce)
    ensures Verified(Play(EmptyQueue(), es, coerce).batches, h) <==> Earned(EmptyQueue(), es, coerce, h)
  {
    EmptyIsSound();
    VerifiedAfter(EmptyQueue(), es, coerce, h);
  }
}
