/** The verification queue's own code: module-level variables and loops
    (wevibe-dashboard/lib/verify-queue.ts), each step doing what `QueueState` says. */
module VerifyQueue {
  // `runs` holds the runs parked at an await. `stored` is the queue last written to the local-storage
  // slot, whose text is then `Persist` of it.

  import opened Text
  import opened Lists
  import opened StableSort
  import opened QueueInput
  import opened QueueState
  import opened QueueStorage
  import opened Wrappers

  class Store {
    var jobs: seq<Job>
    var batches: seq<Batch>
    var failed: JsMap<string>
    var cachedInputs: JsMap<Input>
    var isProcessing: bool
    var runs: seq<Run>
    var nextSerial: nat
    var stored: Option<Queue>
    const coerce: Coercion

    function Contents(): Queue
      reads this
    {
      Queue(jobs, batches, failed, cachedInputs, isProcessing, runs, nextSerial)
    }

    /** What is stored is what is held. */
    predicate Saved()
      reads this
    {
      stored == Some(Contents())
    }

    constructor (coerce: Coercion)
      ensures Contents() == EmptyQueue() && stored == None && this.coerce == coerce
    {
      jobs, batches, failed, cachedInputs := [], [], EmptyMap(), EmptyMap();
      isProcessing, runs, nextSerial := false, [], 0;
      stored := None;
      this.coerce := coerce;
    }

    method PersistState()
      modifies this`stored
      ensures Saved()
    {
      stored := Some(Contents());
    }

    method EnsureHashInBatch(h: string, preferred: string, newId: string, now: real) returns (index: nat)
      modifies this`batches
      ensures (batches, index) == EnsureHash(old(batches), h, preferred, newId, now)
    {
      index := FindHash(batches, h);
      if index < |batches| {
        return;
      }
      if preferred != "" {
        index := FindId(batches, preferred);
        if index < |batches| {
          batches := batches[index := batches[index].(hashes := batches[index].hashes + [h])];
          return;
        }
        batches := batches + [Batch(preferred, now, [h], [])];
        return;
      }
      batches := batches + [Batch(newId, now, [h], [])];
    }

    method MarkBatchHashVerified(batchId: string, h: string, newId: string, now: real)
      modifies this`batches
      ensures batches == MarkVerified(old(batches), batchId, h, newId, now)
    {
      var index := EnsureHashInBatch(h, batchId, newId, now);
      if h !in batches[index].verified {
        batches := batches[index := batches[index].(verified := batches[index].verified + [h])];
      }
    }

    /** Walks the list backwards, splicing as it goes. */
    method RemoveHashFromBatches(h: string)
      modifies this`batches
      ensures batches == RemoveHash(old(batches), h)
    {
      ghost var before := batches;
      var index := |batches|;
      assert before[index..] == [] && RemoveHash([], h) == [];
      while index > 0
        invariant index <= |before| && index <= |batches|
        invariant batches[..index] == before[..index]
        invariant batches[index..] == RemoveHash(before[index..], h)
      {
        index := index - 1;
        assert batches[index] == batches[..index + 1][index] == before[..index + 1][index];
        assert before[index..][0] == before[index] && before[index..][1..] == before[index + 1..];
        var batch := batches[index];
        ghost var later := batches[index + 1..];
        if h in batch.hashes {
          batch := batch.(hashes := Without(batch.hashes, h), verified := Without(batch.verified, h));
          if batch.hashes == [] || Concluded(batch) {
            batches := batches[..index] + batches[index + 1..];
          } else {
            batches := batches[index := batch];
            assert batches[index..] == [batch] + later;
          }
        } else {
          assert batches[index..] == [batch] + later;
        }
      }
    }

    method ReconcileSettledHashes(pendingChainHashes: seq<string>)
      modifies this`batches, this`stored
      ensures Contents() == Reconcile(old(Contents()), pendingChainHashes)
      ensures Contents() != old(Contents()) || stored != old(stored) ==> Saved()
    {
      var pending := PendingSet(pendingChainHashes);
      if pendingChainHashes == [] || batches == [] || pending == {} {
        return;
      }
      var removed := false;
      ghost var before := batches;
      var index := |batches|;
      assert before[index..] == [];
      while index > 0
        invariant index <= |before| && index <= |batches|
        invariant batches[..index] == before[..index]
        invariant batches[index..] == DropSettled(before[index..], pending)
        invariant stored == old(stored) && (!removed ==> batches == before)
      {
        index := index - 1;
        assert batches[index] == batches[..index + 1][index] == before[..index + 1][index];
        assert before[index..][0] == before[index] && before[index..][1..] == before[index + 1..];
        ghost var later := batches[index + 1..];
        if AllIn(batches[index].hashes, pending) {
          batches := batches[..index] + batches[index + 1..];
          removed := true;
        } else {
          assert batches[index..] == [batches[index]] + later;
        }
      }
      if removed {
        PersistState();
      }
    }

    /** Starts the next run, up to its first await. */
    method ProcessNext(connected: bool)
      modifies this
      ensures Contents() == Start(old(Contents()), connected)
      ensures old(Saved()) ==> Saved()
      ensures Contents() != old(Contents()) || stored != old(stored) ==> Saved()
    {
      if isProcessing || !connected {
        return;
      }
      var index := FindQueued(jobs);
      if index == |jobs| {
        return;
      }
      var next := jobs[index].(status := Running, stage := NoStage);
      jobs := jobs[index := next];
      isProcessing := true;
      runs := runs + [Run(next.serial, next.input, next.batchId, AtUpdate)];
      PersistState();
    }

    method BlockedHashes() returns (blocked: set<string>)
      ensures blocked == Blocked(Contents())
    {
      blocked := {};
      for i := 0 to |jobs|
        invariant blocked == set j | j in jobs[..i] :: j.Hash()
      {
        assert jobs[..i + 1] == jobs[..i] + [jobs[i]];
        blocked := blocked + {jobs[i].Hash()};
      }
      assert jobs[..|jobs|] == jobs;
      ghost var ofJobs := blocked;
      for i := 0 to |batches|
        invariant blocked == ofJobs + set b, h | b in batches[..i] && h in b.hashes :: h
      {
        assert batches[..i + 1] == batches[..i] + [batches[i]];
        blocked := blocked + set h | h in batches[i].hashes;
      }
      assert batches[..|batches|] == batches;
    }

    method AcceptInputs(normalized: seq<Input>) returns (accepted: seq<Input>)
      ensures accepted == Accepted(normalized, Blocked(Contents()))
    {
      var blocked := BlockedHashes();
      ghost var taken := blocked;
      accepted := [];
      for i := 0 to |normalized|
        invariant accepted + Accepted(normalized[i..], blocked) == Accepted(normalized, taken)
      {
        assert normalized[i..][0] == normalized[i] && normalized[i..][1..] == normalized[i + 1..];
        if normalized[i].submissionHash !in blocked {
          ghost var rest := Accepted(normalized[i + 1..], blocked + {normalized[i].submissionHash});
          assert accepted + ([normalized[i]] + rest) == accepted + [normalized[i]] + rest;
          blocked := blocked + {normalized[i].submissionHash};
          accepted := accepted + [normalized[i]];
        }
      }
    }

    method PushInput(input: Input, batchId: string)
      modifies this
      ensures Contents() == PushFresh(old(Contents()), input, batchId)
    {
      cachedInputs := cachedInputs.Set(input.submissionHash, input);
      failed := failed.Delete(input.submissionHash);
      jobs := jobs + [Job(nextSerial, input, batchId, Queued, NoStage)];
      nextSerial := nextSerial + 1;
    }

    method EnqueueVerificationBatch(inputs: seq<Json>, batchId: string, now: real, connected: bool)
      modifies this
      ensures Contents() == Enqueue(old(Contents()), inputs, coerce, batchId, now, connected)
      ensures Contents() != old(Contents()) || stored != old(stored) ==> Saved()
    {
      var accepted := AcceptInputs(ParseAll(inputs, coerce));
      if accepted == [] {
        return;
      }
      batches := batches + [Batch(batchId, now, HashesOf(accepted), [])];
      ghost var homed := Contents();
      for i := 0 to |accepted|
        invariant PushAll(Contents(), accepted[i..], batchId) == PushAll(homed, accepted, batchId)
      {
        assert accepted[i..][0] == accepted[i] && accepted[i..][1..] == accepted[i + 1..];
        PushInput(accepted[i], batchId);
      }
      PersistState();
      ProcessNext(connected);
    }

    method ResumeVerifyQueue(connected: bool)
      modifies this
      ensures Contents() == Start(old(Contents()), connected)
      ensures Contents() != old(Contents()) || stored != old(stored) ==> Saved()
    {
      ProcessNext(connected);
    }

    method RetryVerification(submissionHash: string, newId: string, now: real, connected: bool)
      modifies this
      ensures Contents() == Retry(old(Contents()), submissionHash, newId, now, connected)
      ensures Contents() != old(Contents()) || stored != old(stored) ==> Saved()
    {
      var h := Trim(submissionHash);
      if h == "" {
        return;
      }
      ghost var before := Contents();
      failed := failed.Delete(h);
      if HasJob(jobs, h) {
        PersistState();
        ProcessNext(connected);
        return;
      }
      if !cachedInputs.Has(h) {
        PersistState();
        return;
      }
      var cachedInput := cachedInputs.table[h];
      var existing := FindHash(batches, h);
      var batchId := if existing < |batches| then batches[existing].batchId else newId;
      if existing < |batches| {
        batches := batches[existing := batches[existing].(verified := Without(batches[existing].verified, h))];
      } else {
        batches := batches + [Batch(newId, now, [h], [])];
      }
      jobs := jobs + [Job(nextSerial, cachedInput, batchId, Queued, NoStage)];
      nextSerial := nextSerial + 1;
      PersistState();
      ProcessNext(connected);
    }

    method RemoveVerification(submissionHash: string)
      modifies this
      ensures Contents() == Remove(old(Contents()), submissionHash)
      ensures Contents() != old(Contents()) || stored != old(stored) ==> Saved()
    {
      var h := Trim(submissionHash);
      if h == "" {
        return;
      }
      jobs := RemoveJob(jobs, h);
      failed := failed.Delete(h);
      cachedInputs := cachedInputs.Delete(h);
      RemoveHashFromBatches(h);
      PersistState();
    }

    /** The rest of `runJob` from the await run `r` is parked at, to its next await or through its
        `finally` block. */
    method SettleAwait(r: nat, reply: Reply, newId: string, now: real, connected: bool)
      requires r < |runs|
      modifies this
      ensures Contents() == Settle(old(Contents()), r, reply, newId, now, connected)
      ensures Saved()
    {
      hide RemoveJob, SetStage, DropRun, MarkVerified;
      var run := runs[r];
      var h := run.Hash();
      if reply.Good? && run.at != AtVerify {
        var next := if run.at == AtUpdate then AtEmbed else AtVerify;
        jobs := SetStage(jobs, run.serial, if run.at == AtUpdate then EmbeddingStage else VerifyingStage);
        runs := runs[r := run.(at := next)];
        PersistState();
        return;
      }
      var succeeded := false;
      if reply.Good? {
        failed := failed.Delete(h);
        MarkBatchHashVerified(run.batchId, h, newId, now);
        cachedInputs := cachedInputs.Delete(h);
        succeeded := true;
      } else {
        failed := failed.Set(h, Reason(reply.message));
      }
      jobs := RemoveJob(jobs, h);
      if !succeeded && !cachedInputs.Has(h) {
        cachedInputs := cachedInputs.Set(h, run.input);
      }
      isProcessing := false;
      runs := DropRun(runs, r);
      PersistState();
      ProcessNext(connected);
    }

    /** Takes over what the slot holds, giving every job and every failed hash a batch. A payload of
        another version or backend is cleared from the slot. */
    method LoadPersistedState(
        text: Option<Json>, backend: Option<string>, newId: string -> string, now: string -> real)
      requires Contents() == EmptyQueue()
      modifies this
      ensures Contents() == Load(text, backend, coerce, newId, now)
      ensures stored == if text.Some? && !Accepts(text.value, backend) then None else old(stored)
    {
      if text.None? {
        return;
      }
      if !Accepts(text.value, backend) {
        stored := None;
        return;
      }
      BuildLoaded(ParsePayload(text.value.fields, coerce), newId, now);
    }

    method BuildLoaded(p: Parsed, newId: string -> string, now: string -> real)
      requires runs == [] && !isProcessing
      modifies this`jobs, this`cachedInputs, this`failed, this`batches, this`nextSerial
      ensures Contents() == Build(p, newId, now)
    {
      jobs := p.jobs;
      CacheLoaded(p);
      failed := FailuresOf(p);
      batches := NormalizeLoadedBatches(p.batches);
      AssignLoadedJobs(p.jobs, now);
      AssignLoadedFailures(failed.order, newId, now);
      batches := Filter(Open, batches);
      nextSerial := |jobs|;
    }

    method CacheLoaded(p: Parsed)
      requires jobs == p.jobs
      modifies this`cachedInputs
      ensures cachedInputs == SetAll(SetAll(EmptyMap(), Keyed(p.cachedInputs)), KeyedJobs(p.jobs))
    {
      cachedInputs := EmptyMap();
      for i := 0 to |p.cachedInputs|
        invariant SetAll(cachedInputs, Keyed(p.cachedInputs)[i..]) == SetAll(EmptyMap(), Keyed(p.cachedInputs))
      {
        assert Keyed(p.cachedInputs)[i..][1..] == Keyed(p.cachedInputs)[i + 1..];
        cachedInputs := cachedInputs.Set(p.cachedInputs[i].submissionHash, p.cachedInputs[i]);
      }
      ghost var inputsOnly := cachedInputs;
      for i := 0 to |jobs|
        invariant SetAll(cachedInputs, KeyedJobs(p.jobs)[i..]) == SetAll(inputsOnly, KeyedJobs(p.jobs))
      {
        assert KeyedJobs(p.jobs)[i..][1..] == KeyedJobs(p.jobs)[i + 1..];
        cachedInputs := cachedInputs.Set(jobs[i].Hash(), jobs[i].input);
      }
    }

    method AssignLoadedJobs(loaded: seq<Job>, now: string -> real)
      requires jobs == loaded
      modifies this`jobs, this`batches
      ensures jobs == AssignJobs(loaded, old(batches), now).0
      ensures batches == AssignJobs(loaded, old(batches), now).1
    {
      ghost var all := AssignJobs(loaded, batches, now);
      for i := 0 to |loaded|
        invariant |jobs| == |loaded| && jobs[i..] == loaded[i..]
        invariant jobs[..i] + AssignJobs(loaded[i..], batches, now).0 == all.0
        invariant AssignJobs(loaded[i..], batches, now).1 == all.1
      {
        assert jobs[i] == jobs[i..][0] == loaded[i..][0] == loaded[i];
        AssignStep(loaded, i, batches, now);
        ghost var done := jobs[..i];
        var index := EnsureHashInBatch(jobs[i].Hash(), jobs[i].batchId, "", now(jobs[i].Hash()));
        jobs := jobs[i := jobs[i].(batchId := batches[index].batchId)];
        AppendStep(done, jobs[i], AssignJobs(loaded[i + 1..], batches, now).0);
        assert jobs[..i + 1] == done + [jobs[i]];
        assert jobs[i + 1..] == loaded[i + 1..];
      }
      assert loaded[|loaded|..] == [] && jobs[..|loaded|] == jobs;
    }

    method AssignLoadedFailures(keys: seq<string>, newId: string -> string, now: string -> real)
      modifies this`batches
      ensures batches == AssignFailed(keys, old(batches), newId, now)
    {
      for i := 0 to |keys|
        invariant AssignFailed(keys[i..], batches, newId, now) == AssignFailed(keys, old(batches), newId, now)
      {
        assert keys[i..][0] == keys[i] && keys[i..][1..] == keys[i + 1..];
        var _ := EnsureHashInBatch(keys[i], "", newId(keys[i]), now(keys[i]));
      }
    }
  }

  lemma AssignStep(loaded: seq<Job>, i: nat, bs: seq<Batch>, now: string -> real)
    requires i < |loaded|
    ensures var job := loaded[i];
            var (homed, k) := EnsureHash(bs, job.Hash(), job.batchId, "", now(job.Hash()));
            var rest := AssignJobs(loaded[i + 1..], homed, now);
            AssignJobs(loaded[i..], bs, now) == ([job.(batchId := homed[k].batchId)] + rest.0, rest.1)
  {
    assert loaded[i..][0] == loaded[i] && loaded[i..][1..] == loaded[i + 1..];
  }

  lemma AppendStep<T>(done: seq<T>, x: T, rest: seq<T>)
    ensures done + ([x] + rest) == done + [x] + rest
  {
  }

  /** `normalizeLoadedBatches`, with its `seen` and `assigned` sets. */
  method NormalizeLoadedBatches(raw: seq<Batch>) returns (r: seq<Batch>)
    ensures r == LoadBatches(raw)
  {
    var sorted := Sort(Earlier, raw);
    var normalized: seq<Batch> := [];
    var seenBatchIds: set<string> := {};
    var assignedHashes: set<string> := {};
    for i := 0 to |sorted|
      invariant normalized + Tidy(sorted[i..], seenBatchIds, assignedHashes) == Tidy(sorted, {}, {})
    {
      var batch := sorted[i];
      assert sorted[i..][0] == batch && sorted[i..][1..] == sorted[i + 1..];
      if batch.batchId !in seenBatchIds {
        var hashes := FilterAssigned(batch.hashes, assignedHashes);
        if hashes != [] {
          ghost var before, seen, taken := normalized, seenBatchIds, assignedHashes;
          var kept := batch.(hashes := hashes, verified := KeepMembers(batch.verified, hashes));
          normalized := normalized + [kept];
          seenBatchIds := seenBatchIds + {batch.batchId};
          assignedHashes := assignedHashes + set h | h in hashes;
          ghost var rest := Tidy(sorted[i + 1..], seenBatchIds, assignedHashes);
          assert Tidy(sorted[i..], seen, taken) == [kept] + rest;
          assert before + ([kept] + rest) == normalized + rest;
        }
      }
    }
    assert normalized == Tidy(sorted, {}, {}) by {
      assert sorted[|sorted|..] == [];
      assert normalized + [] == normalized;
    }
    r := Filter(Open, normalized);
  }

  /** The filter callback that adds each hash it lets through to the assigned set. */
  method FilterAssigned(hashes: seq<string>, taken: set<string>) returns (r: seq<string>)
    ensures r == TakeNew(hashes, taken)
  {
    r := [];
    var assignedHashes := taken;
    for i := 0 to |hashes|
      invariant r + TakeNew(hashes[i..], assignedHashes) == TakeNew(hashes, taken)
    {
      assert hashes[i..][0] == hashes[i] && hashes[i..][1..] == hashes[i + 1..];
      if hashes[i] !in assignedHashes {
        ghost var rest := TakeNew(hashes[i + 1..], assignedHashes + {hashes[i]});
        assert r + ([hashes[i]] + rest) == r + [hashes[i]] + rest;
        assignedHashes := assignedHashes + {hashes[i]};
        r := r + [hashes[i]];
      }
    }
  }

  /** `normalizeUniqueStringArray`. */
  method NormalizeUniqueStringArray(items: seq<Json>) returns (r: seq<string>)
    ensures r == UniqueStrings(items, {})
  {
    r := [];
    var seen: set<string> := {};
    for i := 0 to |items|
      invariant r + UniqueStrings(items[i..], seen) == UniqueStrings(items, {})
    {
      assert items[i..][0] == items[i] && items[i..][1..] == items[i + 1..];
      var entry := NonEmptyString(items[i]);
      if entry.Some? && entry.value !in seen {
        ghost var rest := UniqueStrings(items[i + 1..], seen + {entry.value});
        assert r + ([entry.value] + rest) == r + [entry.value] + rest;
        seen := seen + {entry.value};
        r := r + [entry.value];
      }
    }
  }
}
