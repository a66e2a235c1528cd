/** The verification queue's state and what each public call and each settled await does to it
    (wevibe-dashboard/lib/verify-queue.ts).

    `serial` stands for a job object's identity: a run keeps a reference to its job object, and that
    object may have left the list, or been replaced there by a new one for the same hash. */
module QueueState {
  import opened Text
  import opened Lists
  import opened QueueInput
  import opened Wrappers

  datatype Status = Queued | Running

  datatype Stage = NoStage | EmbeddingStage | VerifyingStage

  datatype Job = Job(serial: nat, input: Input, batchId: string, status: Status, stage: Stage) {
    function Hash(): string {
      input.submissionHash
    }
  }

  datatype Batch = Batch(batchId: string, createdAt: real, hashes: seq<string>, verified: seq<string>)

  /** The await a run is parked at: `updateKeywords`, the embedding tool call, or `verifyKeywords`. */
  datatype Await = AtUpdate | AtEmbed | AtVerify

  datatype Run = Run(serial: nat, input: Input, batchId: string, at: Await) {
    function Hash(): string {
      input.submissionHash
    }
  }

  datatype Queue = Queue(
    jobs: seq<Job>,
    batches: seq<Batch>,
    failed: JsMap<string>,
    cached: JsMap<Input>,
    isProcessing: bool,
    runs: seq<Run>,
    nextSerial: nat)

  function EmptyQueue(): Queue {
    Queue([], [], EmptyMap(), EmptyMap(), false, [], 0)
  }

  // ----- batches -----

  predicate Concluded(b: Batch) {
    forall h | h in b.hashes :: h in b.verified
  }

  predicate Open(b: Batch) {
    !Concluded(b)
  }

  /** The first batch listing `h`, or the number of batches. */
  function FindHash(bs: seq<Batch>, h: string): (r: nat)
    ensures r <= |bs|
    ensures r < |bs| ==> h in bs[r].hashes
    ensures forall k :: 0 <= k < r ==> h !in bs[k].hashes
  {
    if bs == [] || h in bs[0].hashes then 0 else 1 + FindHash(bs[1..], h)
  }

  function FindId(bs: seq<Batch>, id: string): (r: nat)
    ensures r <= |bs|
    ensures r < |bs| ==> bs[r].batchId == id
    ensures forall k :: 0 <= k < r ==> bs[k].batchId != id
  {
    if bs == [] || bs[0].batchId == id then 0 else 1 + FindId(bs[1..], id)
  }

  /** `ensureHashInBatch`: the batches afterwards, and which of them now lists `h`. `newId` and `now`
      are the random id and the clock reading a new batch would take. */
  function EnsureHash(bs: seq<Batch>, h: string, preferred: string, newId: string, now: real): (r: (seq<Batch>, nat))
    ensures r.1 < |r.0|
  {
    var i := FindHash(bs, h);
    if i < |bs| then (bs, i)
    else if preferred != "" then
      var k := FindId(bs, preferred);
      if k < |bs| then (bs[k := bs[k].(hashes := bs[k].hashes + [h])], k)
      else (bs + [Batch(preferred, now, [h], [])], |bs|)
    else (bs + [Batch(newId, now, [h], [])], |bs|)
  }

  function MarkVerified(bs: seq<Batch>, batchId: string, h: string, newId: string, now: real): seq<Batch> {
    var (homed, i) := EnsureHash(bs, h, batchId, newId, now);
    if h in homed[i].verified then homed
    else homed[i := homed[i].(verified := homed[i].verified + [h])]
  }

  function DropFromBatch(b: Batch, h: string): Batch {
    b.(hashes := Without(b.hashes, h), verified := Without(b.verified, h))
  }

  function RemoveHash(bs: seq<Batch>, h: string): seq<Batch> {
    if bs == [] then []
    else if h !in bs[0].hashes then [bs[0]] + RemoveHash(bs[1..], h)
    else if Concluded(DropFromBatch(bs[0], h)) then RemoveHash(bs[1..], h)
    else [DropFromBatch(bs[0], h)] + RemoveHash(bs[1..], h)
  }

  predicate AllIn(hashes: seq<string>, pending: set<string>) {
    forall h | h in hashes :: h in pending
  }

  function DropSettled(bs: seq<Batch>, pending: set<string>): seq<Batch> {
    if bs == [] then []
    else if AllIn(bs[0].hashes, pending) then DropSettled(bs[1..], pending)
    else [bs[0]] + DropSettled(bs[1..], pending)
  }

  /** The trimmed, non-empty hashes of a reconciliation request. */
  function PendingSet(hashes: seq<string>): set<string> {
    set h | h in hashes && Trim(h) != "" :: Trim(h)
  }

  // ----- jobs -----

  function RemoveJob(jobs: seq<Job>, h: string): seq<Job> {
    if jobs == [] then []
    else if jobs[0].Hash() == h then RemoveJob(jobs[1..], h)
    else [jobs[0]] + RemoveJob(jobs[1..], h)
  }

  predicate HasJob(jobs: seq<Job>, h: string) {
    exists i :: 0 <= i < |jobs| && jobs[i].Hash() == h
  }

  /** The first queued job, or the number of jobs. */
  function FindQueued(jobs: seq<Job>): (r: nat)
    ensures r <= |jobs|
    ensures r < |jobs| ==> jobs[r].status == Queued
    ensures forall k :: 0 <= k < r ==> jobs[k].status != Queued
  {
    if jobs == [] || jobs[0].status == Queued then 0 else 1 + FindQueued(jobs[1..])
  }

  /** Writing `stage` through a reference: it shows in the list only if that object is listed. */
  function SetStage(jobs: seq<Job>, serial: nat, stage: Stage): (r: seq<Job>)
    ensures |r| == |jobs|
    ensures forall i :: 0 <= i < |jobs| ==> r[i] == if jobs[i].serial == serial then jobs[i].(stage := stage) else jobs[i]
  {
    seq(|jobs|, i requires 0 <= i < |jobs| => if jobs[i].serial == serial then jobs[i].(stage := stage) else jobs[i])
  }

  // ----- the calls -----

  /** `processNext` up to its first await. */
  function Start(q: Queue, connected: bool): Queue {
    var k := FindQueued(q.jobs);
    if q.isProcessing || !connected || k == |q.jobs| then q
    else
      var job := q.jobs[k];
      q.(jobs := q.jobs[k := job.(status := Running, stage := NoStage)],
         isProcessing := true,
         runs := q.runs + [Run(job.serial, job.input, job.batchId, AtUpdate)])
  }

  function Blocked(q: Queue): set<string> {
    (set j | j in q.jobs :: j.Hash()) + (set b, h | b in q.batches && h in b.hashes :: h)
  }

  /** The inputs an enqueue takes: first come, first served per hash, none already known. */
  function Accepted(inputs: seq<Input>, blocked: set<string>): seq<Input> {
    if inputs == [] then []
    else if inputs[0].submissionHash in blocked then Accepted(inputs[1..], blocked)
    else [inputs[0]] + Accepted(inputs[1..], blocked + {inputs[0].submissionHash})
  }

  function HashesOf(inputs: seq<Input>): (r: seq<string>)
    ensures |r| == |inputs|
    ensures forall i :: 0 <= i < |inputs| ==> r[i] == inputs[i].submissionHash
  {
    seq(|inputs|, i requires 0 <= i < |inputs| => inputs[i].submissionHash)
  }

  function PushJob(q: Queue, input: Input, batchId: string): Queue {
    q.(jobs := q.jobs + [Job(q.nextSerial, input, batchId, Queued, NoStage)], nextSerial := q.nextSerial + 1)
  }

  function PushFresh(q: Queue, input: Input, batchId: string): Queue {
    PushJob(
      q.(cached := q.cached.Set(input.submissionHash, input), failed := q.failed.Delete(input.submissionHash)),
      input, batchId)
  }

  function PushAll(q: Queue, inputs: seq<Input>, batchId: string): Queue
    decreases |inputs|
  {
    if inputs == [] then q else PushAll(PushFresh(q, inputs[0], batchId), inputs[1..], batchId)
  }

  function Enqueue(q: Queue, raw: seq<Json>, coerce: Coercion, batchId: string, now: real, connected: bool): Queue {
    var accepted := Accepted(ParseAll(raw, coerce), Blocked(q));
    if accepted == [] then q
    else
      var homed := q.(batches := q.batches + [Batch(batchId, now, HashesOf(accepted), [])]);
      Start(PushAll(homed, accepted, batchId), connected)
  }

  function Retry(q: Queue, hash: string, newId: string, now: real, connected: bool): Queue {
    var h := Trim(hash);
    if h == "" then q
    else
      var cleared := q.(failed := q.failed.Delete(h));
      if HasJob(q.jobs, h) then Start(cleared, connected)
      else if !q.cached.Has(h) then cleared
      else
        var i := FindHash(q.batches, h);
        if i < |q.batches| then
          var b := q.batches[i];
          var unverified := cleared.(batches := q.batches[i := b.(verified := Without(b.verified, h))]);
          Start(PushJob(unverified, q.cached.table[h], b.batchId), connected)
        else
          var homed := cleared.(batches := q.batches + [Batch(newId, now, [h], [])]);
          Start(PushJob(homed, q.cached.table[h], newId), connected)
  }

  function Remove(q: Queue, hash: string): Queue {
    var h := Trim(hash);
    if h == "" then q
    else q.(jobs := RemoveJob(q.jobs, h),
            failed := q.failed.Delete(h),
            cached := q.cached.Delete(h),
            batches := RemoveHash(q.batches, h))
  }

  function Reconcile(q: Queue, hashes: seq<string>): Queue {
    if PendingSet(hashes) == {} then q else q.(batches := DropSettled(q.batches, PendingSet(hashes)))
  }

  /** What an awaited call came back with: the expected result, or something thrown, carrying a
      message or not. */
  datatype Reply = Good | Threw(message: Option<string>)

  /** `normalizeErrorReason`. */
  function Reason(message: Option<string>): string {
    if message.Some? && Trim(message.value) != "" then message.value else "Unknown verification error"
  }

  function DropRun(runs: seq<Run>, r: nat): seq<Run>
    requires r < |runs|
  {
    runs[..r] + runs[r + 1..]
  }

  /** The `finally` block of a run, before it calls `processNext`. */
  function Finish(q: Queue, r: nat): Queue
    requires r < |q.runs|
  {
    q.(jobs := RemoveJob(q.jobs, q.runs[r].Hash()), isProcessing := false, runs := DropRun(q.runs, r))
  }

  function Succeed(q: Queue, r: nat, newId: string, now: real): Queue
    requires r < |q.runs|
  {
    var run := q.runs[r];
    Finish(
      q.(failed := q.failed.Delete(run.Hash()),
         batches := MarkVerified(q.batches, run.batchId, run.Hash(), newId, now),
         cached := q.cached.Delete(run.Hash())),
      r)
  }

  function Fail(q: Queue, r: nat, reason: string): Queue
    requires r < |q.runs|
  {
    var run := q.runs[r];
    Finish(
      q.(failed := q.failed.Set(run.Hash(), reason),
         cached := if q.cached.Has(run.Hash()) then q.cached else q.cached.Set(run.Hash(), run.input)),
      r)
  }

  /** Run `r` goes on from the await it is parked at, to its next await or to its end. */
  function Settle(q: Queue, r: nat, reply: Reply, newId: string, now: real, connected: bool): Queue
    requires r < |q.runs|
  {
    var run := q.runs[r];
    if reply.Threw? then Start(Fail(q, r, Reason(reply.message)), connected)
    else match run.at
      case AtUpdate =>
        q.(jobs := SetStage(q.jobs, run.serial, EmbeddingStage), runs := q.runs[r := run.(at := AtEmbed)])
      case AtEmbed =>
        q.(jobs := SetStage(q.jobs, run.serial, VerifyingStage), runs := q.runs[r := run.(at := AtVerify)])
      case AtVerify =>
        Start(Succeed(q, r, newId, now), connected)
  }
}
