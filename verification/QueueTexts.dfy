/** The strings the queue holds: every hash, key and batch id is something the input parser can
    return, so it survives being written out and read back.

    The lemmas leave "can be read back" abstract (`clean`, `canonical`, `legible`); callers put the
    parser's own predicates in. */
module QueueTexts {
  import opened Lists
  import opened QueueInput
  import opened QueueState

  ghost predicate BatchTexts(bs: seq<Batch>, clean: string -> bool) {
    forall i :: 0 <= i < |bs| ==> clean(bs[i].batchId) && forall h :: h in bs[i].hashes ==> clean(h)
  }

  ghost predicate Texts(q: Queue, clean: string -> bool, canonical: Input -> bool, legible: string -> bool) {
    && (forall i :: canonical(i) ==> clean(i.submissionHash))
    && (forall i :: 0 <= i < |q.jobs| ==> canonical(q.jobs[i].input) && clean(q.jobs[i].batchId))
    && (forall r :: 0 <= r < |q.runs| ==> canonical(q.runs[r].input) && clean(q.runs[r].batchId))
    && (forall k :: k in q.cached.table ==> canonical(q.cached.table[k]))
    && (forall k :: k in q.failed.table ==> clean(k) && legible(q.failed.table[k]))
    && BatchTexts(q.batches, clean)
  }

  lemma StartTexts(q: Queue, connected: bool, clean: string -> bool, canonical: Input -> bool, legible: string -> bool)
    requires Texts(q, clean, canonical, legible)
    ensures Texts(Start(q, connected), clean, canonical, legible)
  {
  }

  lemma {:induction false} PushAllTexts(
      q: Queue, inputs: seq<Input>, batchId: string,
      clean: string -> bool, canonical: Input -> bool, legible: string -> bool)
    requires Texts(q, clean, canonical, legible) && clean(batchId)
    requires forall i :: 0 <= i < |inputs| ==> canonical(inputs[i])
    ensures Texts(PushAll(q, inputs, batchId), clean, canonical, legible)
    decreases |inputs|
  {
    if inputs != [] {
      assert Texts(PushFresh(q, inputs[0], batchId), clean, canonical, legible);
      PushAllTexts(PushFresh(q, inputs[0], batchId), inputs[1..], batchId, clean, canonical, legible);
    }
  }

  lemma PushJobTexts(
      q: Queue, input: Input, batchId: string, connected: bool,
      clean: string -> bool, canonical: Input -> bool, legible: string -> bool)
    requires Texts(q, clean, canonical, legible) && canonical(input) && clean(batchId)
    ensures Texts(Start(PushJob(q, input, batchId), connected), clean, canonical, legible)
  {
    StartTexts(PushJob(q, input, batchId), connected, clean, canonical, legible);
  }

  lemma RetryTexts(
      q: Queue, hash: string, newId: string, now: real, connected: bool,
      clean: string -> bool, canonical: Input -> bool, legible: string -> bool)
    requires Texts(q, clean, canonical, legible) && clean(newId)
    requires forall k :: k in q.cached.table ==> q.cached.table[k].submissionHash == k
    ensures Texts(Retry(q, hash, newId, now, connected), clean, canonical, legible)
  {
    var h := Text.Trim(hash);
    var cleared := q.(failed := q.failed.Delete(h));
    assert Texts(cleared, clean, canonical, legible);
    if h == "" {
    } else if HasJob(q.jobs, h) {
      StartTexts(cleared, connected, clean, canonical, legible);
    } else if q.cached.Has(h) {
      var i := FindHash(q.batches, h);
      assert clean(h);
      if i < |q.batches| {
        var b := q.batches[i];
        var bs := q.batches[i := b.(verified := Without(b.verified, h))];
        PushJobTexts(cleared.(batches := bs), q.cached.table[h], b.batchId, connected, clean, canonical, legible);
      } else {
        var bs := q.batches + [Batch(newId, now, [h], [])];
        PushJobTexts(cleared.(batches := bs), q.cached.table[h], newId, connected, clean, canonical, legible);
      }
    }
  }

  lemma {:induction false} RemoveHashTexts(bs: seq<Batch>, h: string, clean: string -> bool)
    requires BatchTexts(bs, clean)
    ensures BatchTexts(RemoveHash(bs, h), clean)
  {
    if bs != [] {
      RemoveHashTexts(bs[1..], h, clean);
      WithoutFacts(bs[0].hashes, h);
    }
  }

  lemma {:induction false} DropSettledTexts(bs: seq<Batch>, pending: set<string>, clean: string -> bool)
    requires BatchTexts(bs, clean)
    ensures BatchTexts(DropSettled(bs, pending), clean)
  {
    if bs != [] {
      DropSettledTexts(bs[1..], pending, clean);
    }
  }

  lemma {:induction false} RemoveJobIn(jobs: seq<Job>, h: string)
    ensures forall j :: j in RemoveJob(jobs, h) ==> j in jobs
  {
    if jobs != [] {
      RemoveJobIn(jobs[1..], h);
    }
  }

  lemma RemoveTexts(
      q: Queue, hash: string, clean: string -> bool, canonical: Input -> bool, legible: string -> bool)
    requires Texts(q, clean, canonical, legible)
    ensures Texts(Remove(q, hash), clean, canonical, legible)
  {
    var h := Text.Trim(hash);
    RemoveHashTexts(q.batches, h, clean);
    RemoveJobIn(q.jobs, h);
    var left := RemoveJob(q.jobs, h);
    assert forall i :: 0 <= i < |left| ==> left[i] in left;
  }

  lemma MarkTexts(
      bs: seq<Batch>, batchId: string, h: string, newId: string, now: real, clean: string -> bool)
    requires BatchTexts(bs, clean) && clean(h) && clean(newId) && clean(batchId)
    ensures BatchTexts(MarkVerified(bs, batchId, h, newId, now), clean)
  {
    var (homed, i) := EnsureHash(bs, h, batchId, newId, now);
    assert BatchTexts(homed, clean);
  }

  lemma FinishTexts(
      q: Queue, r: nat, clean: string -> bool, canonical: Input -> bool, legible: string -> bool)
    requires Texts(q, clean, canonical, legible) && r < |q.runs|
    ensures Texts(Finish(q, r), clean, canonical, legible)
  {
    RemoveJobIn(q.jobs, q.runs[r].Hash());
    var left := RemoveJob(q.jobs, q.runs[r].Hash());
    assert forall i :: 0 <= i < |left| ==> left[i] in left;
  }

  lemma SettleTexts(
      q: Queue, r: nat, reply: Reply, newId: string, now: real, connected: bool,
      clean: string -> bool, canonical: Input -> bool, legible: string -> bool)
    requires Texts(q, clean, canonical, legible) && r < |q.runs| && clean(newId)
    requires reply.Threw? ==> legible(Reason(reply.message))
    ensures Texts(Settle(q, r, reply, newId, now, connected), clean, canonical, legible)
  {
    var run := q.runs[r];
    FinishTexts(q, r, clean, canonical, legible);
    if reply.Threw? {
      var f := Fail(q, r, Reason(reply.message));
      assert Texts(f, clean, canonical, legible);
      StartTexts(f, connected, clean, canonical, legible);
    } else if run.at == AtVerify {
      MarkTexts(q.batches, run.batchId, run.Hash(), newId, now, clean);
      assert Texts(Succeed(q, r, newId, now), clean, canonical, legible);
      StartTexts(Succeed(q, r, newId, now), connected, clean, canonical, legible);
    }
  }
}
