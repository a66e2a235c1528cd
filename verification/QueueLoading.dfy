/** Loading the verification queue (wevibe-dashboard/lib/verify-queue.ts): what any accepted payload, however
    malformed, turns into, and what becomes of a payload this code wrote. Batches come out disjoint and without
    duplicates, and every job and every failed hash ends up in exactly one of them. */
module QueueLoading {
  import opened Text
  import opened Lists
  import opened StableSort
  import opened QueueInput
  import opened QueueState
  import opened QueueInvariant
  import opened QueueTexts
  import opened QueueRuns
  import opened QueueStorage
  import opened Wrappers

  ghost predicate AllOpen(bs: seq<Batch>) {
    forall i :: 0 <= i < |bs| ==> Open(bs[i])
  }

  // ----- parsed batches, one by one -----

  lemma {:induction false} UniqueStringsFacts(items: seq<Json>, seen: set<string>)
    ensures NoDup(UniqueStrings(items, seen))
    ensures forall s :: s in UniqueStrings(items, seen) ==> s !in seen
  {
    if items != [] {
      match NonEmptyString(items[0])
      case None => UniqueStringsFacts(items[1..], seen);
      case Some(s) =>
        if s in seen {
          UniqueStringsFacts(items[1..], seen);
        } else {
          UniqueStringsFacts(items[1..], seen + {s});
          var rest := UniqueStrings(items[1..], seen + {s});
          forall k | 0 <= k < |rest| ensures rest[k] != s {
            assert rest[k] in rest;
          }
        }
    }
  }

  lemma {:induction false} KeepMembersFacts(s: seq<string>, allowed: seq<string>)
    ensures forall x :: x in KeepMembers(s, allowed) <==> x in s && x in allowed
    ensures NoDup(s) ==> NoDup(KeepMembers(s, allowed))
  {
    if s != [] {
      KeepMembersFacts(s[1..], allowed);
      var rest := KeepMembers(s[1..], allowed);
      if NoDup(s) {
        forall k | 0 <= k < |rest| ensures rest[k] != s[0] {
          assert rest[k] in rest;
        }
      }
    }
  }

  lemma ParsedBatchOk(raw: Json, coerce: Coercion)
    requires ParseBatch(raw, coerce).Some?
    ensures BatchOk(ParseBatch(raw, coerce).value)
  {
    var hashes := UniqueStrings(Items(Field(raw.fields, "hashes")), {});
    var verified := UniqueStrings(Items(Field(raw.fields, "verified")), {});
    UniqueStringsFacts(Items(Field(raw.fields, "hashes")), {});
    UniqueStringsFacts(Items(Field(raw.fields, "verified")), {});
    KeepMembersFacts(verified, hashes);
  }

  lemma ParsedBatchesOk(raw: seq<Json>, coerce: Coercion)
    ensures forall b :: b in Present(ParseEachBatch(raw, coerce)) ==> BatchOk(b)
  {
    InPresent(ParseEachBatch(raw, coerce));
    forall b | b in Present(ParseEachBatch(raw, coerce)) ensures BatchOk(b) {
      var k :| 0 <= k < |raw| && ParseEachBatch(raw, coerce)[k] == Some(b);
      ParsedBatchOk(raw[k], coerce);
    }
  }

  // ----- tidying -----

  lemma {:induction false} TakeNewFacts(hashes: seq<string>, taken: set<string>)
    ensures NoDup(TakeNew(hashes, taken))
    ensures forall h :: h in TakeNew(hashes, taken) <==> h in hashes && h !in taken
  {
    if hashes != [] {
      if hashes[0] in taken {
        TakeNewFacts(hashes[1..], taken);
      } else {
        TakeNewFacts(hashes[1..], taken + {hashes[0]});
        var rest := TakeNew(hashes[1..], taken + {hashes[0]});
        forall k | 0 <= k < |rest| ensures rest[k] != hashes[0] {
          assert rest[k] in rest;
        }
      }
    }
  }

  /** A tidied list is disjoint, duplicate-free and uniquely named, and covers every hash exactly
      when the input listed it. */
  lemma {:induction false} TidyFacts(sorted: seq<Batch>, seen: set<string>, taken: set<string>)
    requires forall b :: b in sorted ==> BatchOk(b)
    ensures BatchesOk(Tidy(sorted, seen, taken))
    ensures forall b :: b in Tidy(sorted, seen, taken) ==>
              b.batchId !in seen && forall h :: h in b.hashes ==> h !in taken
  {
    if sorted != [] {
      var b := sorted[0];
      var hashes := TakeNew(b.hashes, taken);
      TakeNewFacts(b.hashes, taken);
      if b.batchId in seen || hashes == [] {
        TidyFacts(sorted[1..], seen, taken);
      } else {
        var more := taken + set h | h in hashes;
        TidyFacts(sorted[1..], seen + {b.batchId}, more);
        KeepMembersFacts(b.verified, hashes);
        var kept := b.(hashes := hashes, verified := KeepMembers(b.verified, hashes));
        var rest := Tidy(sorted[1..], seen + {b.batchId}, more);
        assert BatchOk(b);
        assert BatchOk(kept);
        forall i | 0 <= i < |rest| ensures Apart(kept, rest[i]) {
          assert rest[i] in rest;
        }
      }
    }
  }

  lemma {:induction false} FilterBatches(p: Batch -> bool, bs: seq<Batch>)
    requires BatchesOk(bs)
    ensures BatchesOk(Filter(p, bs)) && Shrunk(Filter(p, bs), bs)
  {
    if bs != [] {
      OkTail(bs);
      FilterBatches(p, bs[1..]);
      var rest := Filter(p, bs[1..]);
      ShrunkSkip(rest, bs);
      if p(bs[0]) {
        ShrunkCons(bs[0], rest, bs);
        OkCons(bs[0], rest, bs);
      }
    }
  }

  lemma FilterAllOpen(bs: seq<Batch>)
    ensures AllOpen(Filter(Open, bs))
  {
    InFilter(Open, bs);
    assert forall i :: 0 <= i < |Filter(Open, bs)| ==> Filter(Open, bs)[i] in Filter(Open, bs);
  }

  lemma {:induction false} FilterOpenNothing(bs: seq<Batch>)
    requires AllOpen(bs)
    ensures Filter(Open, bs) == bs
  {
    if bs != [] {
      FilterOpenNothing(bs[1..]);
    }
  }

  lemma LoadBatchesFacts(raw: seq<Batch>)
    requires forall b :: b in raw ==> BatchOk(b)
    ensures BatchesOk(LoadBatches(raw)) && AllOpen(LoadBatches(raw))
  {
    InSort(Earlier, raw);
    TidyFacts(Sort(Earlier, raw), {}, {});
    FilterBatches(Open, Tidy(Sort(Earlier, raw), {}, {}));
    FilterAllOpen(Tidy(Sort(Earlier, raw), {}, {}));
  }

  // ----- giving jobs and failures a batch -----

  /** Ensuring a hash leaves every batch open, and never moves a hash that has a home. */
  lemma EnsureHashLoads(bs: seq<Batch>, h: string, preferred: string, newId: string, now: real)
    requires BatchesOk(bs) && AllOpen(bs)
    requires preferred == "" ==> UnusedId(bs, newId)
    ensures var (r, i) := EnsureHash(bs, h, preferred, newId, now);
            && BatchesOk(r) && AllOpen(r) && Homed(r, h) && HomeIs(r, h, r[i].batchId)
            && (forall g, id :: Homed(bs, g) && HomeIs(bs, g, id) ==> Homed(r, g) && HomeIs(r, g, id))
            && (forall g :: Verified(r, g) <==> Verified(bs, g))
            && (forall g :: Homed(r, g) <==> Homed(bs, g) || g == h)
  {
    EnsureHashKeeps(bs, h, preferred, newId, now);
    var (r, i) := EnsureHash(bs, h, preferred, newId, now);
    if FindHash(bs, h) == |bs| {
      assert !Homed(bs, h);
      forall k | 0 <= k < |r| ensures Open(r[k]) {
        if k == i {
          assert h in r[i].hashes && h !in r[i].verified by {
            if k < |bs| {
              assert h !in bs[k].hashes;
            }
          }
        } else {
          assert Open(bs[k]);
        }
      }
    }
  }

  lemma {:induction false} AssignJobsFacts(jobs: seq<Job>, bs: seq<Batch>, now: string -> real)
    requires BatchesOk(bs) && AllOpen(bs)
    requires forall i :: 0 <= i < |jobs| ==> jobs[i].batchId != ""
    ensures var (named, last) := AssignJobs(jobs, bs, now);
            && BatchesOk(last) && AllOpen(last)
            && (forall i :: 0 <= i < |jobs| ==>
                  && named[i] == jobs[i].(batchId := named[i].batchId)
                  && Homed(last, jobs[i].Hash()) && HomeIs(last, jobs[i].Hash(), named[i].batchId))
            && (forall g, id :: Homed(bs, g) && HomeIs(bs, g, id) ==> Homed(last, g) && HomeIs(last, g, id))
            && (forall g :: Verified(last, g) <==> Verified(bs, g))
    decreases |jobs|
  {
    if jobs != [] {
      var h := jobs[0].Hash();
      EnsureHashLoads(bs, h, jobs[0].batchId, "", now(h));
      var (homed, k) := EnsureHash(bs, h, jobs[0].batchId, "", now(h));
      AssignJobsFacts(jobs[1..], homed, now);
      var (rest, last) := AssignJobs(jobs[1..], homed, now);
      var (named, _) := AssignJobs(jobs, bs, now);
      forall i | 0 <= i < |jobs|
        ensures && named[i] == jobs[i].(batchId := named[i].batchId)
                && Homed(last, jobs[i].Hash()) && HomeIs(last, jobs[i].Hash(), named[i].batchId)
      {
        if i > 0 {
          assert named[i] == rest[i - 1] && jobs[i] == jobs[1..][i - 1];
        }
      }
    }
  }

  /** The ids drawn for failed hashes are new and different from one another. */
  ghost predicate FreshIds(keys: seq<string>, bs: seq<Batch>, newId: string -> string) {
    && (forall i :: 0 <= i < |keys| ==> Clean(newId(keys[i])) && UnusedId(bs, newId(keys[i])))
    && (forall i, j :: 0 <= i < j < |keys| ==> newId(keys[i]) != newId(keys[j]))
  }

  lemma {:induction false} AssignFailedFacts(keys: seq<string>, bs: seq<Batch>, newId: string -> string, now: string -> real)
    requires BatchesOk(bs) && AllOpen(bs) && FreshIds(keys, bs, newId)
    ensures var last := AssignFailed(keys, bs, newId, now);
            && BatchesOk(last) && AllOpen(last)
            && (forall i :: 0 <= i < |keys| ==> Homed(last, keys[i]))
            && (forall g, id :: Homed(bs, g) && HomeIs(bs, g, id) ==> Homed(last, g) && HomeIs(last, g, id))
            && (forall g :: Homed(bs, g) ==> Homed(last, g))
            && (forall g :: Verified(last, g) <==> Verified(bs, g))
    decreases |keys|
  {
    if keys != [] {
      EnsureHashLoads(bs, keys[0], "", newId(keys[0]), now(keys[0]));
      var next := EnsureHash(bs, keys[0], "", newId(keys[0]), now(keys[0])).0;
      assert FreshIds(keys[1..], next, newId);
      AssignFailedFacts(keys[1..], next, newId, now);
      var last := AssignFailed(keys, bs, newId, now);
      forall i | 0 <= i < |keys| ensures Homed(last, keys[i]) {
        if i > 0 {
          assert keys[i] == keys[1..][i - 1];
        }
      }
    }
  }

  lemma ParsedJobsOk(raw: seq<Json>, coerce: Coercion)
    ensures forall j :: j in Present(ParseEachJob(raw, coerce)) ==>
              j.status == Queued && j.stage == NoStage && j.batchId != ""
  {
    InPresent(ParseEachJob(raw, coerce));
    forall j | j in Present(ParseEachJob(raw, coerce))
      ensures j.status == Queued && j.stage == NoStage && j.batchId != ""
    {
      var k :| 0 <= k < |raw| && ParseEachJob(raw, coerce)[k] == Some(j);
      assert ParseJob(raw[k], coerce) == Some(j);
    }
  }

  /** What the parsers promise about the parts of an accepted payload. */
  ghost predicate ParsedOk(p: Parsed) {
    && (forall i :: 0 <= i < |p.jobs| ==>
          p.jobs[i].status == Queued && p.jobs[i].stage == NoStage && p.jobs[i].batchId != "" && p.jobs[i].serial == i)
    && (forall b :: b in p.batches ==> BatchOk(b))
  }

  lemma PayloadParsesOk(fields: map<string, Json>, coerce: Coercion)
    ensures ParsedOk(ParsePayload(fields, coerce))
  {
    var jobs := Present(ParseEachJob(Items(Field(fields, "jobs")), coerce));
    ParsedJobsOk(Items(Field(fields, "jobs")), coerce);
    assert forall i :: 0 <= i < |jobs| ==> jobs[i] in jobs;
    ParsedBatchesOk(Items(Field(fields, "batches")), coerce);
  }

  /** The batches once every job has one, before failed hashes are looked at. */
  function JobBatches(p: Parsed, now: string -> real): seq<Batch> {
    AssignJobs(p.jobs, LoadBatches(p.batches), now).1
  }

  /** The environment's side of a load. */
  ghost predicate GoodIds(p: Parsed, newId: string -> string, now: string -> real) {
    FreshIds(FailuresOf(p).order, JobBatches(p, now), newId)
  }

  lemma BuildsWellFormed(p: Parsed, newId: string -> string, now: string -> real)
    requires ParsedOk(p) && GoodIds(p, newId, now)
    ensures var q := Build(p, newId, now);
            && q.batches == AssignAll(p, newId, now).1
            && BatchesOk(q.batches) && AllOpen(q.batches)
            && |q.jobs| == |p.jobs|
            && (forall i :: 0 <= i < |q.jobs| ==>
                  && q.jobs[i] == p.jobs[i].(batchId := q.jobs[i].batchId)
                  && Homed(q.batches, q.jobs[i].Hash()) && HomeIs(q.batches, q.jobs[i].Hash(), q.jobs[i].batchId))
            && (forall i :: 0 <= i < |q.failed.order| ==> Homed(q.batches, q.failed.order[i]))
            && (forall h :: Verified(q.batches, h) <==> Verified(LoadBatches(p.batches), h))
  {
    LoadBatchesFacts(p.batches);
    AssignJobsFacts(p.jobs, LoadBatches(p.batches), now);
    AssignFailedFacts(FailuresOf(p).order, JobBatches(p, now), newId, now);
    FilterOpenNothing(AssignAll(p, newId, now).1);
  }

  /** Whatever was stored, an accepted payload loads to disjoint, duplicate-free, uniquely named
      batches, none of them concluded; every job queued, in a batch, and in no batch but the one it
      names; every failed hash in a batch; and the last filter drops nothing. */
  lemma LoadsWellFormed(
      raw: Json, backend: Option<string>, coerce: Coercion, newId: string -> string, now: string -> real)
    requires Accepts(raw, backend) && GoodIds(ParsePayload(raw.fields, coerce), newId, now)
    ensures var q := Load(Some(raw), backend, coerce, newId, now);
            && q.batches == AssignAll(ParsePayload(raw.fields, coerce), newId, now).1
            && BatchesOk(q.batches) && AllOpen(q.batches)
            && q.runs == [] && !q.isProcessing
            && (forall i :: 0 <= i < |q.jobs| ==>
                  && q.jobs[i].status == Queued && q.jobs[i].stage == NoStage && q.jobs[i].serial == i < q.nextSerial
                  && Homed(q.batches, q.jobs[i].Hash()) && HomeIs(q.batches, q.jobs[i].Hash(), q.jobs[i].batchId))
            && (forall i :: 0 <= i < |q.failed.order| ==> Homed(q.batches, q.failed.order[i]))
  {
    PayloadParsesOk(raw.fields, coerce);
    var p := ParsePayload(raw.fields, coerce);
    BuildsWellFormed(p, newId, now);
  }
}
