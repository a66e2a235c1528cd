/** What every call and every settled await of the verification queue keeps, under any interleaving. */
module QueueInvariant {
  import opened Text
  import opened Lists
  import opened QueueInput
  import opened QueueState

  // ----- batches -----

  ghost predicate BatchOk(b: Batch) {
    && b.hashes != [] && NoDup(b.hashes) && NoDup(b.verified)
    && (forall h :: h in b.verified ==> h in b.hashes)
  }

  ghost predicate Apart(a: Batch, b: Batch) {
    && a.batchId != b.batchId
    && forall h :: h in a.hashes ==> h !in b.hashes
  }

  ghost predicate BatchesOk(bs: seq<Batch>) {
    && (forall i :: 0 <= i < |bs| ==> BatchOk(bs[i]))
    && (forall i, j :: 0 <= i < j < |bs| ==> Apart(bs[i], bs[j]))
  }

  ghost predicate Homed(bs: seq<Batch>, h: string) {
    exists i :: 0 <= i < |bs| && h in bs[i].hashes
  }

  ghost predicate Verified(bs: seq<Batch>, h: string) {
    exists i :: 0 <= i < |bs| && h in bs[i].verified
  }

  /** No batch other than `id` lists `h`. */
  ghost predicate HomeIs(bs: seq<Batch>, h: string, id: string) {
    forall i :: 0 <= i < |bs| && h in bs[i].hashes ==> bs[i].batchId == id
  }

  ghost predicate UnusedId(bs: seq<Batch>, id: string) {
    forall i :: 0 <= i < |bs| ==> bs[i].batchId != id
  }

  ghost predicate PartOf(a: Batch, b: Batch) {
    && a.batchId == b.batchId && a.createdAt == b.createdAt
    && (forall h :: h in a.hashes ==> h in b.hashes)
    && (forall h :: h in a.verified ==> h in b.verified)
  }

  ghost predicate FromOne(a: Batch, before: seq<Batch>) {
    exists k :: 0 <= k < |before| && PartOf(a, before[k])
  }

  /** Every batch of `after` is a batch of `before` with some hashes and marks gone. */
  ghost predicate Shrunk(after: seq<Batch>, before: seq<Batch>) {
    forall i :: 0 <= i < |after| ==> FromOne(after[i], before)
  }

  lemma ShrunkSkip(rest: seq<Batch>, bs: seq<Batch>)
    requires bs != [] && Shrunk(rest, bs[1..])
    ensures Shrunk(rest, bs)
  {
    forall i | 0 <= i < |rest| ensures FromOne(rest[i], bs)
    {
      assert FromOne(rest[i], bs[1..]);
      var k :| 0 <= k < |bs[1..]| && PartOf(rest[i], bs[1..][k]);
      assert PartOf(rest[i], bs[k + 1]);
    }
  }

  lemma ShrunkCons(b: Batch, rest: seq<Batch>, bs: seq<Batch>)
    requires bs != [] && Shrunk(rest, bs[1..]) && PartOf(b, bs[0])
    ensures Shrunk([b] + rest, bs)
  {
    ShrunkSkip(rest, bs);
    var r := [b] + rest;
    forall i | 0 <= i < |r| ensures FromOne(r[i], bs)
    {
      if i > 0 {
        assert r[i] == rest[i - 1];
      }
    }
  }

  lemma OkCons(b: Batch, rest: seq<Batch>, bs: seq<Batch>)
    requires bs != [] && BatchesOk(bs)
    requires BatchesOk(rest) && Shrunk(rest, bs[1..]) && BatchOk(b) && PartOf(b, bs[0])
    ensures BatchesOk([b] + rest)
  {
    forall i | 0 <= i < |rest| ensures Apart(b, rest[i])
    {
      assert FromOne(rest[i], bs[1..]);
      var k :| 0 <= k < |bs[1..]| && PartOf(rest[i], bs[1..][k]);
      assert Apart(bs[0], bs[k + 1]);
    }
  }

  lemma OkTail(bs: seq<Batch>)
    requires bs != [] && BatchesOk(bs)
    ensures BatchesOk(bs[1..])
  {
  }

  lemma {:induction false} RemoveHashKeeps(bs: seq<Batch>, h: string)
    requires BatchesOk(bs)
    ensures BatchesOk(RemoveHash(bs, h)) && Shrunk(RemoveHash(bs, h), bs)
    ensures !Homed(RemoveHash(bs, h), h)
  {
    if bs != [] {
      var rest := RemoveHash(bs[1..], h);
      OkTail(bs);
      RemoveHashKeeps(bs[1..], h);
      var b := DropFromBatch(bs[0], h);
      WithoutFacts(bs[0].hashes, h);
      WithoutFacts(bs[0].verified, h);
      ShrunkSkip(rest, bs);
      if h !in bs[0].hashes {
        ShrunkCons(bs[0], rest, bs);
        OkCons(bs[0], rest, bs);
      } else if !Concluded(b) {
        ShrunkCons(b, rest, bs);
        OkCons(b, rest, bs);
      }
    }
  }

  lemma {:induction false} DropSettledKeeps(bs: seq<Batch>, pending: set<string>)
    requires BatchesOk(bs)
    ensures BatchesOk(DropSettled(bs, pending)) && Shrunk(DropSettled(bs, pending), bs)
    ensures forall b :: b in DropSettled(bs, pending) <==> b in bs && !AllIn(b.hashes, pending)
  {
    if bs != [] {
      var rest := DropSettled(bs[1..], pending);
      OkTail(bs);
      DropSettledKeeps(bs[1..], pending);
      ShrunkSkip(rest, bs);
      if !AllIn(bs[0].hashes, pending) {
        ShrunkCons(bs[0], rest, bs);
        OkCons(bs[0], rest, bs);
      }
    }
  }

  lemma AddBatch(bs: seq<Batch>, b: Batch)
    requires BatchesOk(bs) && BatchOk(b) && UnusedId(bs, b.batchId)
    requires forall h :: h in b.hashes ==> !Homed(bs, h)
    ensures BatchesOk(bs + [b])
    ensures forall g :: Homed(bs + [b], g) <==> Homed(bs, g) || g in b.hashes
    ensures forall g :: Verified(bs + [b], g) <==> Verified(bs, g) || g in b.verified
    ensures forall g, id :: g !in b.hashes && HomeIs(bs, g, id) ==> HomeIs(bs + [b], g, id)
    ensures forall g :: g in b.hashes ==> HomeIs(bs + [b], g, b.batchId)
  {
    var r := bs + [b];
    forall g ensures Homed(r, g) <==> Homed(bs, g) || g in b.hashes
    {
      if Homed(bs, g) {
        var k :| 0 <= k < |bs| && g in bs[k].hashes;
        assert g in r[k].hashes;
      }
      assert r[|bs|] == b;
    }
    forall g ensures Verified(r, g) <==> Verified(bs, g) || g in b.verified
    {
      if Verified(bs, g) {
        var k :| 0 <= k < |bs| && g in bs[k].verified;
        assert g in r[k].verified;
      }
      assert r[|bs|] == b;
    }
  }

  lemma JoinBatch(bs: seq<Batch>, i: nat, h: string)
    requires BatchesOk(bs) && i < |bs| && !Homed(bs, h)
    ensures var r := bs[i := bs[i].(hashes := bs[i].hashes + [h])];
            && BatchesOk(r)
            && (forall g :: Homed(r, g) <==> Homed(bs, g) || g == h)
            && (forall g :: Verified(r, g) <==> Verified(bs, g))
            && (forall g, id :: g != h && HomeIs(bs, g, id) ==> HomeIs(r, g, id))
            && HomeIs(r, h, bs[i].batchId)
  {
    var b := bs[i].(hashes := bs[i].hashes + [h]);
    var r := bs[i := b];
    assert BatchOk(b);
    forall j, k | 0 <= j < k < |r| ensures Apart(r[j], r[k])
    {
      assert Apart(bs[j], bs[k]);
    }
    forall g ensures Homed(r, g) <==> Homed(bs, g) || g == h
    {
      if Homed(bs, g) {
        var k :| 0 <= k < |bs| && g in bs[k].hashes;
        assert g in r[k].hashes;
      }
      assert h in r[i].hashes;
    }
    forall g ensures Verified(r, g) <==> Verified(bs, g)
    {
      if Verified(bs, g) {
        var k :| 0 <= k < |bs| && g in bs[k].verified;
        assert g in r[k].verified;
      }
    }
  }

  /** Putting a hash in a batch adds exactly that hash, and only when no batch had it. */
  lemma EnsureHashKeeps(bs: seq<Batch>, h: string, preferred: string, newId: string, now: real)
    requires BatchesOk(bs)
    requires preferred == "" ==> UnusedId(bs, newId)
    ensures var (r, i) := EnsureHash(bs, h, preferred, newId, now);
            && BatchesOk(r) && h in r[i].hashes
            && (forall g :: Homed(r, g) <==> Homed(bs, g) || g == h)
            && (forall g :: Verified(r, g) <==> Verified(bs, g))
            && (forall g, id :: g != h && HomeIs(bs, g, id) ==> HomeIs(r, g, id))
            && HomeIs(r, h, r[i].batchId)
            && (!Homed(bs, h) && preferred != "" ==> r[i].batchId == preferred)
  {
    var (r, i) := EnsureHash(bs, h, preferred, newId, now);
    if FindHash(bs, h) < |bs| {
      assert Homed(bs, h);
      forall k | 0 <= k < |bs| && h in bs[k].hashes ensures k == i
      {
        assert k >= i;
        assert i < k ==> Apart(bs[i], bs[k]);
      }
    } else if preferred != "" && FindId(bs, preferred) < |bs| {
      JoinBatch(bs, i, h);
    } else {
      AddBatch(bs, Batch(if preferred != "" then preferred else newId, now, [h], []));
    }
  }

  // ----- the whole queue -----

  ghost predicate JobsDistinct(jobs: seq<Job>) {
    forall i, j :: 0 <= i < j < |jobs| ==> jobs[i].Hash() != jobs[j].Hash() && jobs[i].serial != jobs[j].serial
  }

  function StageAt(at: Await): Stage {
    match at
    case AtUpdate => NoStage
    case AtEmbed => EmbeddingStage
    case AtVerify => VerifyingStage
  }

  /** `job` is the object the run holds. */
  ghost predicate Holds(run: Run, job: Job) {
    && run.serial == job.serial && run.input == job.input && run.batchId == job.batchId
    && job.stage == StageAt(run.at)
  }

  /** Distinct hashes; at most one run, flagged by `isProcessing`; the run's job, while listed, is
      first, and it is the only one marked running. */
  ghost predicate JobsOk(q: Queue) {
    && JobsDistinct(q.jobs)
    && |q.runs| <= 1
    && (q.isProcessing <==> |q.runs| == 1)
    && (forall i :: 0 <= i < |q.jobs| ==> q.jobs[i].serial < q.nextSerial)
    && (forall r :: 0 <= r < |q.runs| ==> q.runs[r].serial < q.nextSerial)
    && (forall i :: 0 <= i < |q.jobs| ==>
          (q.jobs[i].status == Running <==> q.runs != [] && q.runs[0].serial == q.jobs[i].serial))
    && (forall i :: 0 <= i < |q.jobs| && q.jobs[i].status == Running ==> i == 0 && Holds(q.runs[0], q.jobs[i]))
    && (forall i :: 0 <= i < |q.jobs| && q.jobs[i].status == Queued ==> q.jobs[i].stage == NoStage)
  }

  /** Every job's input is cached under its own hash. */
  ghost predicate CacheOk(q: Queue) {
    && q.failed.Valid() && q.cached.Valid()
    && (forall k :: k in q.cached.table ==> q.cached.table[k].submissionHash == k)
    && (forall i :: 0 <= i < |q.jobs| ==>
          q.cached.Has(q.jobs[i].Hash()) && q.cached.table[q.jobs[i].Hash()] == q.jobs[i].input)
  }

  /** Failed, listed and verified exclude each other, and a hash in flight is not verified. */
  ghost predicate Exclusive(q: Queue) {
    && (forall i :: 0 <= i < |q.jobs| ==> !q.failed.Has(q.jobs[i].Hash()) && !Verified(q.batches, q.jobs[i].Hash()))
    && (forall k :: q.failed.Has(k) ==> !Verified(q.batches, k))
    && (forall r :: 0 <= r < |q.runs| ==> !Verified(q.batches, q.runs[r].Hash()))
  }

  /** A listed job's hash is in no batch but the one the job names. */
  ghost predicate HomesOk(q: Queue) {
    forall i :: 0 <= i < |q.jobs| ==> HomeIs(q.batches, q.jobs[i].Hash(), q.jobs[i].batchId)
  }

  ghost predicate Inv(q: Queue) {
    JobsOk(q) && CacheOk(q) && Exclusive(q) && HomesOk(q) && BatchesOk(q.batches)
  }

  // ----- one piece of a call at a time -----

  lemma StartKeeps(q: Queue, connected: bool)
    requires Inv(q)
    ensures Inv(Start(q, connected))
  {
    if !q.isProcessing && q.jobs != [] {
      assert q.runs == [];
      assert q.jobs[0].status == Queued;
    }
  }

  lemma PushJobJobsOk(q: Queue, input: Input, batchId: string)
    requires JobsOk(q) && !HasJob(q.jobs, input.submissionHash)
    ensures JobsOk(PushJob(q, input, batchId))
  {
    assert forall i :: 0 <= i < |q.jobs| ==> q.jobs[i].Hash() != input.submissionHash;
  }

  lemma PushJobKeeps(q: Queue, input: Input, batchId: string)
    requires Inv(q)
    requires var h := input.submissionHash;
             && !HasJob(q.jobs, h) && !q.failed.Has(h) && !Verified(q.batches, h)
             && q.cached.Has(h) && q.cached.table[h] == input && HomeIs(q.batches, h, batchId)
    ensures Inv(PushJob(q, input, batchId))
  {
    PushJobJobsOk(q, input, batchId);
  }

  /** Caching an input and clearing its failure. */
  lemma ReadyKeeps(q: Queue, input: Input)
    requires Inv(q) && !HasJob(q.jobs, input.submissionHash)
    ensures Inv(q.(cached := q.cached.Set(input.submissionHash, input), failed := q.failed.Delete(input.submissionHash)))
  {
    hide BatchesOk;
    q.cached.SetValid(input.submissionHash, input);
    q.failed.DeleteValid(input.submissionHash);
  }

  lemma PushFreshKeeps(q: Queue, input: Input, batchId: string)
    requires Inv(q)
    requires var h := input.submissionHash;
             !HasJob(q.jobs, h) && !Verified(q.batches, h) && HomeIs(q.batches, h, batchId)
    ensures Inv(PushFresh(q, input, batchId))
  {
    var h := input.submissionHash;
    var ready := q.(cached := q.cached.Set(h, input), failed := q.failed.Delete(h));
    ReadyKeeps(q, input);
    hide Inv, HomeIs;
    PushJobKeeps(ready, input, batchId);
  }

  lemma {:induction false} PushAllKeeps(q: Queue, inputs: seq<Input>, batchId: string)
    requires Inv(q) && NoDup(HashesOf(inputs))
    requires forall i :: 0 <= i < |inputs| ==>
               var h := inputs[i].submissionHash;
               !HasJob(q.jobs, h) && !Verified(q.batches, h) && HomeIs(q.batches, h, batchId)
    ensures Inv(PushAll(q, inputs, batchId))
    decreases |inputs|
  {
    if inputs != [] {
      PushFreshKeeps(q, inputs[0], batchId);
      var next := PushFresh(q, inputs[0], batchId);
      var rest := inputs[1..];
      assert HashesOf(rest) == HashesOf(inputs)[1..];
      forall i | 0 <= i < |rest| ensures !HasJob(next.jobs, rest[i].submissionHash)
      {
        assert rest[i] == inputs[i + 1];
        assert HashesOf(inputs)[0] != HashesOf(inputs)[i + 1];
      }
      PushAllKeeps(next, rest, batchId);
    }
  }

  lemma {:induction false} AcceptedFacts(inputs: seq<Input>, blocked: set<string>)
    ensures NoDup(HashesOf(Accepted(inputs, blocked)))
    ensures forall i :: i in Accepted(inputs, blocked) ==> i in inputs && i.submissionHash !in blocked
  {
    if inputs != [] {
      if inputs[0].submissionHash in blocked {
        AcceptedFacts(inputs[1..], blocked);
      } else {
        var more := blocked + {inputs[0].submissionHash};
        AcceptedFacts(inputs[1..], more);
        var rest := Accepted(inputs[1..], more);
        assert Accepted(inputs, blocked) == [inputs[0]] + rest;
        forall k | 0 <= k < |rest| ensures HashesOf(rest)[k] != inputs[0].submissionHash
        {
          assert rest[k] in rest;
        }
        assert HashesOf([inputs[0]] + rest) == [inputs[0].submissionHash] + HashesOf(rest);
      }
    }
  }

  lemma ClearFailedKeeps(q: Queue, h: string)
    requires Inv(q)
    ensures Inv(q.(failed := q.failed.Delete(h)))
  {
    q.failed.DeleteValid(h);
  }

  lemma ShrinkKeeps(q: Queue, bs: seq<Batch>)
    requires Inv(q) && BatchesOk(bs) && Shrunk(bs, q.batches)
    ensures Inv(q.(batches := bs))
  {
  }

  lemma AddBatchKeeps(q: Queue, b: Batch)
    requires Inv(q) && BatchOk(b) && UnusedId(q.batches, b.batchId) && b.verified == []
    requires forall h :: h in b.hashes ==> !Homed(q.batches, h) && !HasJob(q.jobs, h)
    ensures Inv(q.(batches := q.batches + [b]))
  {
    AddBatch(q.batches, b);
    forall i | 0 <= i < |q.jobs| ensures q.jobs[i].Hash() !in b.hashes
    {
      assert HasJob(q.jobs, q.jobs[i].Hash());
    }
  }

  lemma EnqueueKeeps(q: Queue, raw: seq<Json>, coerce: Coercion, batchId: string, now: real, connected: bool)
    requires Inv(q) && UnusedId(q.batches, batchId)
    ensures Inv(Enqueue(q, raw, coerce, batchId, now, connected))
  {
    var accepted := Accepted(ParseAll(raw, coerce), Blocked(q));
    AcceptedFacts(ParseAll(raw, coerce), Blocked(q));
    if accepted != [] {
      var b := Batch(batchId, now, HashesOf(accepted), []);
      forall h | h in b.hashes ensures !Homed(q.batches, h) && !HasJob(q.jobs, h)
      {
        var i :| 0 <= i < |accepted| && b.hashes[i] == h;
        assert accepted[i] in accepted;
        assert h !in Blocked(q);
      }
      var homed := q.(batches := q.batches + [b]);
      AddBatch(q.batches, b);
      AddBatchKeeps(q, b);
      forall i | 0 <= i < |accepted|
        ensures var h := accepted[i].submissionHash;
                !HasJob(q.jobs, h) && !Verified(homed.batches, h) && HomeIs(homed.batches, h, batchId)
      {
        assert HashesOf(accepted)[i] in b.hashes;
      }
      PushAllKeeps(homed, accepted, batchId);
      StartKeeps(PushAll(homed, accepted, batchId), connected);
    }
  }

  lemma UnverifyKeeps(bs: seq<Batch>, i: nat, h: string)
    requires BatchesOk(bs) && i < |bs| && h in bs[i].hashes
    ensures var r := bs[i := bs[i].(verified := Without(bs[i].verified, h))];
            && BatchesOk(r) && Shrunk(r, bs) && !Verified(r, h)
            && (forall g :: Homed(bs, g) ==> Homed(r, g))
            && HomeIs(r, h, bs[i].batchId)
  {
    WithoutFacts(bs[i].verified, h);
    var r := bs[i := bs[i].(verified := Without(bs[i].verified, h))];
    forall j, k | 0 <= j < k < |r| ensures Apart(r[j], r[k])
    {
      assert Apart(bs[j], bs[k]);
    }
    forall k | 0 <= k < |r| ensures FromOne(r[k], bs)
    {
      assert PartOf(r[k], bs[k]);
    }
    forall k | 0 <= k < |r| && h in r[k].hashes ensures k == i
    {
      assert k < i ==> Apart(r[k], r[i]);
      assert i < k ==> Apart(r[i], r[k]);
    }
    forall g | Homed(bs, g) ensures Homed(r, g)
    {
      var k :| 0 <= k < |bs| && g in bs[k].hashes;
      assert g in r[k].hashes;
    }
  }

  lemma RetryKeeps(q: Queue, hash: string, newId: string, now: real, connected: bool)
    requires Inv(q) && UnusedId(q.batches, newId)
    ensures Inv(Retry(q, hash, newId, now, connected))
  {
    hide Trim, BatchesOk, JobsOk, HomesOk, Exclusive;
    var h := Trim(hash);
    if h != "" {
      ClearFailedKeeps(q, h);
      var cleared := q.(failed := q.failed.Delete(h));
      if HasJob(q.jobs, h) {
        StartKeeps(cleared, connected);
      } else if q.cached.Has(h) {
        WithoutFacts(cleared.failed.order, h);
        assert Trim(h) == h by {
          TrimFixes(h);
        }
        RetryPushKeeps(cleared, h, newId, now, connected);
        assert cleared.failed.Delete(h) == cleared.failed;
      }
    }
  }

  /** A retry that puts the cached input back in the job list. */
  lemma RetryPushKeeps(q: Queue, h: string, newId: string, now: real, connected: bool)
    requires Inv(q) && UnusedId(q.batches, newId)
    requires h != "" && Trim(h) == h && !q.failed.Has(h) && !HasJob(q.jobs, h) && q.cached.Has(h)
    ensures Inv(Retry(q, h, newId, now, connected))
  {
    ClearFailedKeeps(q, h);
    var c := q.(failed := q.failed.Delete(h));
    var input := q.cached.table[h];
    var i := FindHash(q.batches, h);
    if i < |q.batches| {
      RetryHomedKeeps(c, input, h, i);
      var bs := q.batches[i := q.batches[i].(verified := Without(q.batches[i].verified, h))];
      StartKeeps(PushJob(c.(batches := bs), input, q.batches[i].batchId), connected);
    } else {
      hide Inv;
      var b := Batch(newId, now, [h], []);
      RetryUnhomedKeeps(c, input, h, b);
      StartKeeps(PushJob(c.(batches := q.batches + [b]), input, newId), connected);
    }
  }

  lemma RetryHomedKeeps(c: Queue, input: Input, h: string, i: nat)
    requires Inv(c) && i < |c.batches| && h in c.batches[i].hashes && input.submissionHash == h && c.cached.Has(h)
    requires c.cached.table[h] == input && !c.failed.Has(h) && !HasJob(c.jobs, h)
    ensures var b := c.batches[i];
            Inv(PushJob(c.(batches := c.batches[i := b.(verified := Without(b.verified, h))]), input, b.batchId))
  {
    var b := c.batches[i];
    var bs := c.batches[i := b.(verified := Without(b.verified, h))];
    UnverifyKeeps(c.batches, i, h);
    ShrinkKeeps(c, bs);
    hide Inv;
    PushJobKeeps(c.(batches := bs), input, b.batchId);
  }

  lemma RetryUnhomedKeeps(c: Queue, input: Input, h: string, b: Batch)
    requires Inv(c) && UnusedId(c.batches, b.batchId) && !Homed(c.batches, h) && b.hashes == [h] && b.verified == []
    requires input.submissionHash == h && c.cached.Has(h) && c.cached.table[h] == input
    requires !c.failed.Has(h) && !HasJob(c.jobs, h)
    ensures Inv(PushJob(c.(batches := c.batches + [b]), input, b.batchId))
  {
    AddBatch(c.batches, b);
    AddBatchKeeps(c, b);
    hide Inv;
    PushJobKeeps(c.(batches := c.batches + [b]), input, b.batchId);
  }

  lemma {:induction false} RemoveJobFacts(jobs: seq<Job>, h: string)
    ensures forall j :: j in RemoveJob(jobs, h) <==> j in jobs && j.Hash() != h
    ensures JobsDistinct(jobs) ==> JobsDistinct(RemoveJob(jobs, h))
    ensures jobs != [] && jobs[0].Hash() != h ==> RemoveJob(jobs, h) != [] && RemoveJob(jobs, h)[0] == jobs[0]
  {
    if jobs != [] {
      RemoveJobFacts(jobs[1..], h);
      var rest := RemoveJob(jobs[1..], h);
      if JobsDistinct(jobs) {
        forall k | 0 <= k < |rest| ensures rest[k].Hash() != jobs[0].Hash() && rest[k].serial != jobs[0].serial
        {
          assert rest[k] in rest;
        }
      }
    }
  }

  /** Dropping a hash's job keeps what the job list promises, with the same runs. */
  lemma DropJobKeeps(q: Queue, h: string)
    requires JobsOk(q)
    ensures JobsOk(q.(jobs := RemoveJob(q.jobs, h)))
    ensures !HasJob(RemoveJob(q.jobs, h), h)
  {
    var left := RemoveJob(q.jobs, h);
    RemoveJobFacts(q.jobs, h);
    forall i | 0 <= i < |left| ensures left[i] in q.jobs && left[i].Hash() != h && (left[i].status == Running ==> i == 0)
    {
      assert left[i] in left;
      if left[i].status == Running {
        assert left[i] == q.jobs[0];
        assert left[0] == q.jobs[0];
      }
    }
  }

  lemma DropHashKeeps(q: Queue, h: string)
    requires Inv(q)
    ensures Inv(q.(jobs := RemoveJob(q.jobs, h)))
    ensures !HasJob(RemoveJob(q.jobs, h), h)
  {
    DropJobKeeps(q, h);
    RemoveJobFacts(q.jobs, h);
    var left := RemoveJob(q.jobs, h);
    assert forall i :: 0 <= i < |left| ==> left[i] in left;
  }

  lemma UncacheKeeps(q: Queue, h: string)
    requires Inv(q) && !HasJob(q.jobs, h)
    ensures Inv(q.(cached := q.cached.Delete(h)))
  {
    q.cached.DeleteValid(h);
    assert forall i :: 0 <= i < |q.jobs| ==> q.jobs[i].Hash() != h;
  }

  lemma RemoveKeeps(q: Queue, hash: string)
    requires Inv(q)
    ensures Inv(Remove(q, hash))
  {
    var h := Trim(hash);
    if h != "" {
      ClearFailedKeeps(q, h);
      var a := q.(failed := q.failed.Delete(h));
      DropHashKeeps(a, h);
      var b := a.(jobs := RemoveJob(q.jobs, h));
      UncacheKeeps(b, h);
      RemoveHashKeeps(q.batches, h);
      ShrinkKeeps(b.(cached := q.cached.Delete(h)), RemoveHash(q.batches, h));
    }
  }

  lemma ReconcileKeeps(q: Queue, hashes: seq<string>)
    requires Inv(q)
    ensures Inv(Reconcile(q, hashes))
  {
    DropSettledKeeps(q.batches, PendingSet(hashes));
    ShrinkKeeps(q, DropSettled(q.batches, PendingSet(hashes)));
  }

  // ----- a run going on -----

  lemma AdvanceKeeps(q: Queue, r: nat, at: Await)
    requires Inv(q) && r < |q.runs|
    ensures Inv(q.(jobs := SetStage(q.jobs, q.runs[r].serial, StageAt(at)), runs := q.runs[r := q.runs[r].(at := at)]))
  {
    var after := q.(jobs := SetStage(q.jobs, q.runs[r].serial, StageAt(at)), runs := q.runs[r := q.runs[r].(at := at)]);
    assert r == 0;
    forall i | 0 <= i < |q.jobs| ensures after.jobs[i].Hash() == q.jobs[i].Hash() && after.jobs[i].serial == q.jobs[i].serial
    {
    }
    assert JobsDistinct(after.jobs);
    assert JobsOk(after);
  }

  lemma FinishKeeps(q: Queue, r: nat)
    requires Inv(q) && r < |q.runs|
    ensures Inv(Finish(q, r)) && Finish(q, r).runs == [] && !HasJob(Finish(q, r).jobs, q.runs[r].Hash())
  {
    var h := q.runs[r].Hash();
    DropHashKeeps(q, h);
    var dropped := q.(jobs := RemoveJob(q.jobs, h));
    var after := Finish(q, r);
    assert r == 0 && after.runs == [];
    forall i | 0 <= i < |after.jobs| ensures after.jobs[i].status == Queued
    {
      assert dropped.jobs[i].Hash() != h;
    }
  }

  lemma SetFailedKeeps(q: Queue, h: string, reason: string)
    requires Inv(q) && !HasJob(q.jobs, h) && !Verified(q.batches, h)
    ensures Inv(q.(failed := q.failed.Set(h, reason)))
  {
    q.failed.SetValid(h, reason);
    assert forall i :: 0 <= i < |q.jobs| ==> q.jobs[i].Hash() != h;
  }

  lemma CacheKeeps(q: Queue, input: Input)
    requires Inv(q) && !HasJob(q.jobs, input.submissionHash)
    ensures Inv(q.(cached := q.cached.Set(input.submissionHash, input)))
  {
    q.cached.SetValid(input.submissionHash, input);
    assert forall i :: 0 <= i < |q.jobs| ==> q.jobs[i].Hash() != input.submissionHash;
  }

  lemma FailKeeps(q: Queue, r: nat, reason: string)
    requires Inv(q) && r < |q.runs|
    ensures Inv(Fail(q, r, reason))
  {
    var run := q.runs[r];
    FinishKeeps(q, r);
    var f := Finish(q, r);
    SetFailedKeeps(f, run.Hash(), reason);
    if !q.cached.Has(run.Hash()) {
      CacheKeeps(f.(failed := q.failed.Set(run.Hash(), reason)), run.input);
    }
  }

  lemma MarkVerifiedKeeps(bs: seq<Batch>, batchId: string, h: string, newId: string, now: real)
    requires BatchesOk(bs) && (batchId == "" ==> UnusedId(bs, newId))
    ensures BatchesOk(MarkVerified(bs, batchId, h, newId, now))
    ensures forall g :: Verified(MarkVerified(bs, batchId, h, newId, now), g) <==> Verified(bs, g) || g == h
    ensures forall g :: Homed(MarkVerified(bs, batchId, h, newId, now), g) <==> Homed(bs, g) || g == h
    ensures forall g, id :: g != h && HomeIs(bs, g, id) ==> HomeIs(MarkVerified(bs, batchId, h, newId, now), g, id)
  {
    EnsureHashKeeps(bs, h, batchId, newId, now);
    var (homed, i) := EnsureHash(bs, h, batchId, newId, now);
    if h in homed[i].verified {
      assert Verified(homed, h);
    } else {
      MarkKeeps(homed, i, h);
    }
  }

  lemma MarkKeeps(bs: seq<Batch>, i: nat, h: string)
    requires BatchesOk(bs) && i < |bs| && h in bs[i].hashes && h !in bs[i].verified
    ensures var r := bs[i := bs[i].(verified := bs[i].verified + [h])];
            && BatchesOk(r)
            && (forall g :: Verified(r, g) <==> Verified(bs, g) || g == h)
            && (forall g :: Homed(r, g) <==> Homed(bs, g))
            && (forall g, id :: HomeIs(bs, g, id) ==> HomeIs(r, g, id))
  {
    var b := bs[i].(verified := bs[i].verified + [h]);
    var r := bs[i := b];
    assert BatchOk(b);
    forall j, k | 0 <= j < k < |r| ensures Apart(r[j], r[k])
    {
      assert Apart(bs[j], bs[k]);
    }
    forall g ensures Verified(r, g) <==> Verified(bs, g) || g == h
    {
      if Verified(bs, g) {
        var k :| 0 <= k < |bs| && g in bs[k].verified;
        assert g in r[k].verified;
      }
      assert h in r[i].verified;
    }
    forall g ensures Homed(r, g) <==> Homed(bs, g)
    {
      if Homed(bs, g) {
        var k :| 0 <= k < |bs| && g in bs[k].hashes;
        assert g in r[k].hashes;
      }
    }
  }

  /** With no run in flight, a hash that is neither listed nor failed may be marked verified. */
  lemma MarkIdleKeeps(q: Queue, batchId: string, h: string, newId: string, now: real)
    requires Inv(q) && q.runs == [] && !HasJob(q.jobs, h) && !q.failed.Has(h)
    requires batchId == "" ==> UnusedId(q.batches, newId)
    ensures Inv(q.(batches := MarkVerified(q.batches, batchId, h, newId, now)))
  {
    MarkVerifiedKeeps(q.batches, batchId, h, newId, now);
    assert forall i :: 0 <= i < |q.jobs| ==> q.jobs[i].Hash() != h;
  }

  lemma SucceedKeeps(q: Queue, r: nat, newId: string, now: real)
    requires Inv(q) && r < |q.runs|
    requires q.runs[r].batchId == "" ==> UnusedId(q.batches, newId)
    ensures Inv(Succeed(q, r, newId, now))
  {
    var run := q.runs[r];
    var h := run.Hash();
    FinishKeeps(q, r);
    var f := Finish(q, r);
    ClearFailedKeeps(f, h);
    var c := f.(failed := q.failed.Delete(h));
    UncacheKeeps(c, h);
    var u := c.(cached := q.cached.Delete(h));
    MarkIdleKeeps(u, run.batchId, h, newId, now);
    assert Succeed(q, r, newId, now) == u.(batches := MarkVerified(q.batches, run.batchId, h, newId, now));
  }

  lemma SettleKeeps(q: Queue, r: nat, reply: Reply, newId: string, now: real, connected: bool)
    requires Inv(q) && r < |q.runs|
    requires q.runs[r].batchId == "" ==> UnusedId(q.batches, newId)
    ensures Inv(Settle(q, r, reply, newId, now, connected))
  {
    if reply.Threw? {
      var reason := Reason(reply.message);
      FailKeeps(q, r, reason);
      StartKeeps(Fail(q, r, reason), connected);
      assert Settle(q, r, reply, newId, now, connected) == Start(Fail(q, r, reason), connected);
    } else if q.runs[r].at == AtVerify {
      SucceedKeeps(q, r, newId, now);
      StartKeeps(Succeed(q, r, newId, now), connected);
      assert Settle(q, r, reply, newId, now, connected) == Start(Succeed(q, r, newId, now), connected);
    } else {
      AdvanceKeeps(q, r, if q.runs[r].at == AtUpdate then AtEmbed else AtVerify);
    }
  }
}
