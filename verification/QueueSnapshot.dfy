/** What the verification queue shows (wevibe-dashboard/lib/verify-queue.ts, rebuildSnapshot), and
    that a page reload shows the same thing. */
module QueueSnapshot {
  import opened Text
  import opened Lists
  import opened StableSort
  import opened QueueInput
  import opened QueueState
  import opened QueueInvariant
  import opened QueueRuns
  import opened QueueStorage
  import opened QueueLoading
  import opened QueueRoundTrip
  import opened Wrappers

  datatype ItemState = ShowsPending | ShowsEmbedding | ShowsVerifying | ShowsVerified | ShowsFailed(reason: string)

  datatype Item = Item(submissionHash: string, state: ItemState)

  datatype BatchView = BatchView(batchId: string, createdAt: real, items: seq<Item>)

  datatype Snapshot = Snapshot(
    batches: seq<BatchView>, inFlightHashes: seq<string>, activeCount: nat, failedHashes: seq<string>)

  /** The first job for each hash. */
  function FirstJob(jobs: seq<Job>, h: string): Option<Job> {
    if jobs == [] then None
    else if jobs[0].Hash() == h then Some(jobs[0])
    else FirstJob(jobs[1..], h)
  }

  function StateOf(q: Queue, b: Batch, h: string): ItemState {
    if q.failed.Has(h) && q.failed.table[h] != "" then ShowsFailed(q.failed.table[h])
    else match FirstJob(q.jobs, h)
      case Some(job) =>
        if job.status == Running && job.stage == EmbeddingStage then ShowsEmbedding
        else if job.status == Running && job.stage == VerifyingStage then ShowsVerifying
        else ShowsPending
      case None => if h in b.verified then ShowsVerified else ShowsPending
  }

  function View(q: Queue, b: Batch): (r: BatchView)
    ensures |r.items| == |b.hashes|
  {
    BatchView(b.batchId, b.createdAt,
              seq(|b.hashes|, i requires 0 <= i < |b.hashes| => Item(b.hashes[i], StateOf(q, b, b.hashes[i]))))
  }

  function Views(q: Queue, bs: seq<Batch>): (r: seq<BatchView>)
    ensures |r| == |bs|
    ensures forall i :: 0 <= i < |bs| ==> r[i] == View(q, bs[i])
  {
    seq(|bs|, i requires 0 <= i < |bs| => View(q, bs[i]))
  }

  /** The members of `hashes` not in `seen` yet, appended in order of first appearance. */
  function AddUnseen(seen: seq<string>, hashes: seq<string>): seq<string>
    decreases |hashes|
  {
    if hashes == [] then seen
    else AddUnseen(if hashes[0] in seen then seen else seen + [hashes[0]], hashes[1..])
  }

  function Collect(seen: seq<string>, bs: seq<Batch>): seq<string>
    decreases |bs|
  {
    if bs == [] then seen else Collect(AddUnseen(seen, bs[0].hashes), bs[1..])
  }

  function SnapshotOf(q: Queue): Snapshot {
    var sorted := Sort(Earlier, q.batches);
    Snapshot(Views(q, sorted), Collect([], sorted), |q.jobs|, q.failed.order)
  }

  lemma {:induction false} FirstJobExactly(jobs: seq<Job>, h: string)
    ensures FirstJob(jobs, h).None? ==> forall i :: 0 <= i < |jobs| ==> jobs[i].Hash() != h
    ensures FirstJob(jobs, h).Some? ==> FirstJob(jobs, h).value in jobs && FirstJob(jobs, h).value.Hash() == h
  {
    if jobs != [] {
      FirstJobExactly(jobs[1..], h);
    }
  }

  /** The run in flight is for `h`, its job still listed, and waits for this. */
  ghost predicate RunsAt(q: Queue, h: string, at: Await) {
    && q.runs != [] && q.runs[0].at == at && q.runs[0].Hash() == h
    && exists i :: 0 <= i < |q.jobs| && q.jobs[i].serial == q.runs[0].serial
  }

  /** In a sound queue a batch's item shows what the queue knows of its hash: the reason it failed for, that it is
      verified, or how far the run in flight has got with it; and that it is pending otherwise. */
  lemma ShowsExactly(q: Queue, b: Batch, h: string)
    requires Sound(q) && b in q.batches && h in b.hashes
    ensures var shown := StateOf(q, b, h);
            && (forall reason :: shown == ShowsFailed(reason) <==> q.failed.Has(h) && q.failed.table[h] == reason)
            && (shown == ShowsVerified <==> h in b.verified)
            && (shown == ShowsEmbedding <==> RunsAt(q, h, AtEmbed))
            && (shown == ShowsVerifying <==> RunsAt(q, h, AtVerify))
  {
    hide Inv, Sound, Verified, Trim, FirstJob;
    RecordsExclude(q, b, h);
    if FirstJob(q.jobs, h).Some? {
      FirstJobStands(q, h);
    }
    forall at | RunsAt(q, h, at) ensures FirstJob(q.jobs, h).Some? && FirstJob(q.jobs, h).value.status == Running
    {
      RunningIsFirst(q, h, at);
    }
  }

  lemma RecordsExclude(q: Queue, b: Batch, h: string)
    requires Sound(q) && b in q.batches
    ensures Inv(q) && (h in b.verified ==> Verified(q.batches, h) && !q.failed.Has(h))
    ensures q.failed.Has(h) ==> q.failed.table[h] != ""
  {
    var k :| 0 <= k < |q.batches| && q.batches[k] == b;
    if q.failed.Has(h) {
      NotBlank(q.failed.table[h]);
    }
    assert Exclusive(q);
    hide JobsOk, CacheOk, HomesOk, BatchesOk, Trim;
    assert h in b.verified ==> Verified(q.batches, h);
  }

  lemma FirstJobStands(q: Queue, h: string)
    requires Inv(q) && FirstJob(q.jobs, h).Some?
    ensures var job := FirstJob(q.jobs, h).value;
            && !q.failed.Has(h) && !Verified(q.batches, h)
            && (job.status == Running ==> q.runs != [] && RunsAt(q, h, q.runs[0].at) && job.stage == StageAt(q.runs[0].at))
  {
    FirstJobExactly(q.jobs, h);
    var i :| 0 <= i < |q.jobs| && q.jobs[i] == FirstJob(q.jobs, h).value;
    assert JobsOk(q) && Exclusive(q);
    hide BatchesOk, CacheOk, HomesOk, FirstJob, Verified;
    assert q.jobs[i].status == Running ==> Holds(q.runs[0], q.jobs[i]);
  }

  lemma RunningIsFirst(q: Queue, h: string, at: Await)
    requires Inv(q) && RunsAt(q, h, at)
    ensures FirstJob(q.jobs, h).Some? && FirstJob(q.jobs, h).value.status == Running
  {
    assert JobsOk(q);
    hide BatchesOk, CacheOk, HomesOk, Exclusive;
    FirstJobExactly(q.jobs, h);
    var i :| 0 <= i < |q.jobs| && q.jobs[i].serial == q.runs[0].serial;
    assert q.jobs[i].status == Running && Holds(q.runs[0], q.jobs[i]);
  }

  lemma NotBlank(reason: string)
    ensures Legible(reason) ==> reason != ""
  {
  }

  // ----- the loops that build it -----

  lemma {:induction false} FirstJobSnoc(jobs: seq<Job>, i: nat, h: string)
    requires i < |jobs|
    ensures FirstJob(jobs[..i + 1], h)
         == if FirstJob(jobs[..i], h).Some? then FirstJob(jobs[..i], h)
            else if jobs[i].Hash() == h then Some(jobs[i]) else None
  {
    if i > 0 && jobs[0].Hash() != h {
      assert jobs[..i + 1][1..] == jobs[1..][..i] && jobs[..i][1..] == jobs[1..][..i - 1];
      FirstJobSnoc(jobs[1..], i - 1, h);
    }
  }

  /** `jobByHash`: the first job of each hash. */
  method JobsByHash(jobs: seq<Job>) returns (byHash: map<string, Job>)
    ensures forall h :: FirstJob(jobs, h) == if h in byHash then Some(byHash[h]) else None
  {
    byHash := map[];
    var i := 0;
    while i < |jobs|
      invariant i <= |jobs|
      invariant forall h :: FirstJob(jobs[..i], h) == if h in byHash then Some(byHash[h]) else None
    {
      forall h ensures FirstJob(jobs[..i + 1], h)
                    == if FirstJob(jobs[..i], h).Some? then FirstJob(jobs[..i], h)
                       else if jobs[i].Hash() == h then Some(jobs[i]) else None
      {
        FirstJobSnoc(jobs, i, h);
      }
      if jobs[i].Hash() !in byHash {
        byHash := byHash[jobs[i].Hash() := jobs[i]];
      }
      i := i + 1;
    }
    assert jobs[..i] == jobs;
  }

  /** What one item shows, from the looked-up job. */
  function ShownState(q: Queue, byHash: map<string, Job>, b: Batch, h: string): ItemState {
    if q.failed.Has(h) && q.failed.table[h] != "" then ShowsFailed(q.failed.table[h])
    else if h in byHash then
      if byHash[h].status == Running && byHash[h].stage == EmbeddingStage then ShowsEmbedding
      else if byHash[h].status == Running && byHash[h].stage == VerifyingStage then ShowsVerifying
      else ShowsPending
    else if h in b.verified then ShowsVerified else ShowsPending
  }

  /** `inFlightHashSet.add` for each hash, in the order the set keeps. */
  method AddHashes(seen: seq<string>, hashes: seq<string>) returns (all: seq<string>)
    ensures all == AddUnseen(seen, hashes)
  {
    all := seen;
    var i := 0;
    assert hashes[0..] == hashes;
    while i < |hashes|
      invariant i <= |hashes| && AddUnseen(all, hashes[i..]) == AddUnseen(seen, hashes)
    {
      assert hashes[i..][0] == hashes[i] && hashes[i..][1..] == hashes[i + 1..];
      if hashes[i] !in all {
        all := all + [hashes[i]];
      }
      i := i + 1;
    }
  }

  method RebuildSnapshot(q: Queue) returns (snapshot: Snapshot)
    ensures snapshot == SnapshotOf(q)
  {
    hide AddUnseen, Sort;
    var byHash := JobsByHash(q.jobs);
    var sorted := Sort(Earlier, q.batches);
    var shown: seq<BatchView> := [];
    var inFlight: seq<string> := [];
    var i := 0;
    assert sorted[0..] == sorted;
    while i < |sorted|
      invariant i <= |sorted| && shown == Views(q, sorted)[..i]
      invariant Collect(inFlight, sorted[i..]) == Collect([], sorted)
    {
      assert sorted[i..][0] == sorted[i] && sorted[i..][1..] == sorted[i + 1..];
      var batch := sorted[i];
      var items := seq(|batch.hashes|, k requires 0 <= k < |batch.hashes| =>
        Item(batch.hashes[k], ShownState(q, byHash, batch, batch.hashes[k])));
      assert items == View(q, batch).items;
      shown := shown + [BatchView(batch.batchId, batch.createdAt, items)];
      inFlight := AddHashes(inFlight, batch.hashes);
      i := i + 1;
    }
    snapshot := Snapshot(shown, inFlight, |q.jobs|, q.failed.order);
  }

  // ----- the snapshot a reload should show -----

  function Calm(s: ItemState): ItemState {
    match s
    case ShowsEmbedding => ShowsPending
    case ShowsVerifying => ShowsPending
    case ShowsFailed(reason) => ShowsFailed(Trim(reason))
    case _ => s
  }

  predicate Done(v: BatchView) {
    forall i | 0 <= i < |v.items| :: v.items[i].state == ShowsVerified
  }

  function CalmView(v: BatchView): (r: BatchView)
    ensures |r.items| == |v.items|
  {
    v.(items := seq(|v.items|, i requires 0 <= i < |v.items| => v.items[i].(state := Calm(v.items[i].state))))
  }

  function CalmViews(vs: seq<BatchView>): seq<BatchView> {
    if vs == [] then []
    else if Done(vs[0]) then CalmViews(vs[1..])
    else [CalmView(vs[0])] + CalmViews(vs[1..])
  }

  function ItemHashes(v: BatchView): (r: seq<string>)
    ensures |r| == |v.items|
    ensures forall i :: 0 <= i < |r| ==> r[i] == v.items[i].submissionHash
  {
    seq(|v.items|, i requires 0 <= i < |v.items| => v.items[i].submissionHash)
  }

  function CollectViews(seen: seq<string>, vs: seq<BatchView>): seq<string>
    decreases |vs|
  {
    if vs == [] then seen else CollectViews(AddUnseen(seen, ItemHashes(vs[0])), vs[1..])
  }

  /** Running shown as pending, failure reasons trimmed, fully verified batches dropped. */
  function CalmSnapshot(s: Snapshot): Snapshot {
    var vs := CalmViews(s.batches);
    s.(batches := vs, inFlightHashes := CollectViews([], vs))
  }

  lemma {:induction false} FirstJobFacts(jobs: seq<Job>, h: string)
    ensures FirstJob(jobs, h).Some? <==> HasJob(jobs, h)
    ensures FirstJob(jobs, h).Some? ==> FirstJob(jobs, h).value in jobs && FirstJob(jobs, h).value.Hash() == h
  {
    if jobs != [] {
      FirstJobFacts(jobs[1..], h);
      if jobs[0].Hash() != h {
        if HasJob(jobs, h) {
          var k :| 0 <= k < |jobs| && jobs[k].Hash() == h;
          assert jobs[1..][k - 1].Hash() == h;
        }
        if HasJob(jobs[1..], h) {
          var k :| 0 <= k < |jobs[1..]| && jobs[1..][k].Hash() == h;
          assert jobs[k + 1].Hash() == h;
        }
      }
    }
  }

  lemma {:induction false} FirstJobRests(jobs: seq<Job>, reset: seq<Job>, h: string)
    requires |reset| == |jobs| && forall i :: 0 <= i < |jobs| ==> reset[i].Hash() == jobs[i].Hash() && reset[i].status == Queued
    ensures FirstJob(reset, h).Some? <==> FirstJob(jobs, h).Some?
    ensures FirstJob(reset, h).Some? ==> FirstJob(reset, h).value.status == Queued
  {
    if jobs != [] {
      FirstJobRests(jobs[1..], reset[1..], h);
    }
  }

  /** Reloading calms one item, whatever it showed. */
  lemma StateCalms(q: Queue, b: Batch, h: string)
    requires Inv(q) && forall k :: k in q.failed.table ==> Legible(q.failed.table[k])
    ensures StateOf(Restored(q), b, h) == Calm(StateOf(q, b, h))
  {
    hide Inv, LoadBatchesOf;
    FirstJobRests(q.jobs, ResetJobs(q.jobs), h);
    if q.failed.Has(h) {
      assert Legible(q.failed.table[h]);
      assert q.failed.table[h] != "";
    }
  }

  lemma ViewCalms(q: Queue, b: Batch)
    requires Inv(q) && forall k :: k in q.failed.table ==> Legible(q.failed.table[k])
    ensures View(Restored(q), b) == CalmView(View(q, b))
  {
    forall i | 0 <= i < |b.hashes| ensures View(Restored(q), b).items[i] == CalmView(View(q, b)).items[i] {
      StateCalms(q, b, b.hashes[i]);
    }
  }

  /** The batches that show only verified items are the concluded ones. */
  lemma DoneIsConcluded(q: Queue, b: Batch)
    requires Inv(q) && b in q.batches
    ensures Done(View(q, b)) <==> Concluded(b)
  {
    if Concluded(b) {
      forall i | 0 <= i < |b.hashes| ensures View(q, b).items[i].state == ShowsVerified {
        var h := b.hashes[i];
        assert h in b.hashes;
        assert Verified(q.batches, h);
        FirstJobFacts(q.jobs, h);
        assert !q.failed.Has(h);
      }
    }
    if Done(View(q, b)) {
      forall h | h in b.hashes ensures h in b.verified {
        var i :| 0 <= i < |b.hashes| && b.hashes[i] == h;
        assert View(q, b).items[i].state == ShowsVerified;
      }
    }
  }

  lemma {:induction false} ViewsCalm(q: Queue, r: Queue, bs: seq<Batch>)
    requires forall i :: 0 <= i < |bs| ==> View(r, bs[i]) == CalmView(View(q, bs[i]))
    requires forall i :: 0 <= i < |bs| ==> (Done(View(q, bs[i])) <==> !Open(bs[i]))
    ensures Views(r, Filter(Open, bs)) == CalmViews(Views(q, bs))
  {
    if bs != [] {
      ViewsCalm(q, r, bs[1..]);
      assert Views(q, bs)[1..] == Views(q, bs[1..]);
      if Open(bs[0]) {
        var rest := Filter(Open, bs[1..]);
        assert Views(r, [bs[0]] + rest) == [View(r, bs[0])] + Views(r, rest);
      }
    }
  }

  lemma {:induction false} CollectsViews(q: Queue, seen: seq<string>, bs: seq<Batch>)
    ensures Collect(seen, bs) == CollectViews(seen, Views(q, bs))
    decreases |bs|
  {
    if bs != [] {
      assert ItemHashes(View(q, bs[0])) == bs[0].hashes;
      assert Views(q, bs)[1..] == Views(q, bs[1..]);
      CollectsViews(q, AddUnseen(seen, bs[0].hashes), bs[1..]);
    }
  }

  lemma RestoredSorted(bs: seq<Batch>)
    ensures Sort(Earlier, LoadBatchesOf(bs)) == LoadBatchesOf(bs)
  {
    SortSorted(Earlier, bs);
    FilterKeepsSorted(Earlier, Open, Sort(Earlier, bs));
    SortKeepsSorted(Earlier, LoadBatchesOf(bs));
  }

  lemma RestoredShows(q: Queue)
    requires Sound(q)
    ensures SnapshotOf(Restored(q)) == CalmSnapshot(SnapshotOf(q))
  {
    RestoredSorted(q.batches);
    InSort(Earlier, q.batches);
    var sorted := Sort(Earlier, q.batches);
    forall i | 0 <= i < |sorted|
      ensures View(Restored(q), sorted[i]) == CalmView(View(q, sorted[i]))
      ensures Done(View(q, sorted[i])) <==> !Open(sorted[i])
    {
      assert sorted[i] in sorted;
      ViewCalms(q, sorted[i]);
      DoneIsConcluded(q, sorted[i]);
    }
    ViewsCalm(q, Restored(q), sorted);
    CollectsViews(Restored(q), [], LoadBatchesOf(q.batches));
  }

  /** A reload of a homed queue shows what was shown before, running shown as pending and fully
      verified batches gone, with batches, items and failures in the same order. */
  lemma ReloadShows(
      q: Queue, wrote: Option<string>, reader: Option<string>, coerce: Coercion,
      newId: string -> string, now: string -> real)
    requires Sound(q) && AllHomed(q) && (wrote.Some? ==> Clean(wrote.value))
    requires reader == None || wrote == None || reader == wrote
    requires GoodIds(Payload(q), newId, now)
    ensures SnapshotOf(Load(Some(Persist(q, wrote)), reader, coerce, newId, now)) == CalmSnapshot(SnapshotOf(q))
  {
    RoundTrip(q, wrote, reader, coerce, newId, now);
    RestoredShows(q);
  }
}
