/** Writing the verification queue to storage and loading it back
    (wevibe-dashboard/lib/verify-queue.ts, persistState and loadPersistedState).

    The random batch id and the clock reading a new batch would take while loading are arbitrary
    functions of the hash the batch is made for. */
module QueueStorage {
  import opened Text
  import opened Lists
  import opened StableSort
  import opened QueueInput
  import opened QueueState
  import opened Wrappers

  // ----- what is stored -----

  function EncodeInputs(s: seq<Input>): (r: seq<Json>)
    ensures |r| == |s|
    ensures forall i :: 0 <= i < |s| ==> r[i] == EncodeInput(s[i])
  {
    seq(|s|, i requires 0 <= i < |s| => EncodeInput(s[i]))
  }

  function EncodeStage(stage: Stage): Json {
    match stage
    case NoStage => Null
    case EmbeddingStage => Str("embedding")
    case VerifyingStage => Str("verifying")
  }

  function JobFields(j: Job): map<string, Json> {
    InputFields(j.input)["batchId" := Str(j.batchId)]
    ["status" := Str(if j.status == Running then "running" else "queued")]["stage" := EncodeStage(j.stage)]
  }

  function EncodeJobs(s: seq<Job>): (r: seq<Json>)
    ensures |r| == |s|
    ensures forall i :: 0 <= i < |s| ==> r[i] == Obj(JobFields(s[i]))
  {
    seq(|s|, i requires 0 <= i < |s| => Obj(JobFields(s[i])))
  }

  function BatchFields(b: Batch): map<string, Json> {
    map["batchId" := Str(b.batchId), "createdAt" := Num(Finite(b.createdAt)),
        "hashes" := Arr(EncodeStrings(b.hashes)), "verified" := Arr(EncodeStrings(b.verified))]
  }

  function EncodeBatches(s: seq<Batch>): (r: seq<Json>)
    ensures |r| == |s|
    ensures forall i :: 0 <= i < |s| ==> r[i] == Obj(BatchFields(s[i]))
  {
    seq(|s|, i requires 0 <= i < |s| => Obj(BatchFields(s[i])))
  }

  /** A map's entries in insertion order. */
  function Entries<V>(order: seq<string>, table: map<string, V>): seq<(string, V)> {
    if order == [] then []
    else if order[0] in table then [(order[0], table[order[0]])] + Entries(order[1..], table)
    else Entries(order[1..], table)
  }

  function Values<V>(entries: seq<(string, V)>): (r: seq<V>)
    ensures |r| == |entries|
    ensures forall i :: 0 <= i < |entries| ==> r[i] == entries[i].1
  {
    seq(|entries|, i requires 0 <= i < |entries| => entries[i].1)
  }

  function FailureFields(e: (string, string)): map<string, Json> {
    map["submissionHash" := Str(e.0), "reason" := Str(e.1)]
  }

  function EncodeFailures(s: seq<(string, string)>): (r: seq<Json>)
    ensures |r| == |s|
    ensures forall i :: 0 <= i < |s| ==> r[i] == Obj(FailureFields(s[i]))
  {
    seq(|s|, i requires 0 <= i < |s| => Obj(FailureFields(s[i])))
  }

  /** The stored payload, for the backend instance the page last saw, if any. */
  function Persist(q: Queue, backend: Option<string>): Json {
    Obj(map[
      "version" := Num(Finite(1.0)),
      "backendInstanceId" := if backend.Some? then Str(backend.value) else Null,
      "jobs" := Arr(EncodeJobs(q.jobs)),
      "batches" := Arr(EncodeBatches(q.batches)),
      "cachedInputs" := Arr(EncodeInputs(Values(Entries(q.cached.order, q.cached.table)))),
      "failed" := Arr(EncodeFailures(Entries(q.failed.order, q.failed.table)))])
  }

  // ----- reading it back -----

  /** A stored job always comes back queued and without a stage. */
  function ParseJob(raw: Json, coerce: Coercion): Option<Job> {
    match ParseInput(raw, coerce)
    case None => None
    case Some(input) =>
      var named := NonEmptyString(Field(raw.fields, "batchId"));
      Some(Job(0, input, if named.Some? then named.value else "legacy-" + input.submissionHash, Queued, NoStage))
  }

  function ParseEachJob(raw: seq<Json>, coerce: Coercion): (r: seq<Option<Job>>)
    ensures |r| == |raw|
    ensures forall i :: 0 <= i < |raw| ==> r[i] == ParseJob(raw[i], coerce)
  {
    seq(|raw|, i requires 0 <= i < |raw| => ParseJob(raw[i], coerce))
  }

  /** The loaded objects are new ones. */
  function Numbered(jobs: seq<Job>): (r: seq<Job>)
    ensures |r| == |jobs|
    ensures forall i :: 0 <= i < |jobs| ==> r[i] == jobs[i].(serial := i)
  {
    seq(|jobs|, i requires 0 <= i < |jobs| => jobs[i].(serial := i))
  }

  /** Trimmed, non-empty, first occurrences only. */
  function UniqueStrings(items: seq<Json>, seen: set<string>): seq<string> {
    if items == [] then []
    else match NonEmptyString(items[0])
      case None => UniqueStrings(items[1..], seen)
      case Some(s) =>
        if s in seen then UniqueStrings(items[1..], seen) else [s] + UniqueStrings(items[1..], seen + {s})
  }

  function KeepMembers(s: seq<string>, allowed: seq<string>): seq<string> {
    if s == [] then []
    else if s[0] in allowed then [s[0]] + KeepMembers(s[1..], allowed)
    else KeepMembers(s[1..], allowed)
  }

  function ParseBatch(raw: Json, coerce: Coercion): Option<Batch> {
    if !raw.Obj? then None
    else
      var id := NonEmptyString(Field(raw.fields, "batchId"));
      var createdAt := ToNumber(Field(raw.fields, "createdAt"), coerce);
      var hashes := UniqueStrings(Items(Field(raw.fields, "hashes")), {});
      if id.None? || createdAt.NonFinite? || hashes == [] then None
      else Some(Batch(id.value, createdAt.value, hashes,
                      KeepMembers(UniqueStrings(Items(Field(raw.fields, "verified")), {}), hashes)))
  }

  function ParseEachBatch(raw: seq<Json>, coerce: Coercion): (r: seq<Option<Batch>>)
    ensures |r| == |raw|
    ensures forall i :: 0 <= i < |raw| ==> r[i] == ParseBatch(raw[i], coerce)
  {
    seq(|raw|, i requires 0 <= i < |raw| => ParseBatch(raw[i], coerce))
  }

  function ParseFailures(raw: seq<Json>): seq<(string, string)> {
    if raw == [] then []
    else if !raw[0].Obj? then ParseFailures(raw[1..])
    else
      var hash := NonEmptyString(Field(raw[0].fields, "submissionHash"));
      var reason := NonEmptyString(Field(raw[0].fields, "reason"));
      if hash.Some? && reason.Some? then [(hash.value, reason.value)] + ParseFailures(raw[1..])
      else ParseFailures(raw[1..])
  }

  function SetAll<V>(m: JsMap<V>, entries: seq<(string, V)>): JsMap<V>
    decreases |entries|
  {
    if entries == [] then m else SetAll(m.Set(entries[0].0, entries[0].1), entries[1..])
  }

  function Keyed(inputs: seq<Input>): (r: seq<(string, Input)>)
    ensures |r| == |inputs|
    ensures forall i :: 0 <= i < |inputs| ==> r[i] == (inputs[i].submissionHash, inputs[i])
  {
    seq(|inputs|, i requires 0 <= i < |inputs| => (inputs[i].submissionHash, inputs[i]))
  }

  function KeyedJobs(jobs: seq<Job>): (r: seq<(string, Input)>)
    ensures |r| == |jobs|
    ensures forall i :: 0 <= i < |jobs| ==> r[i] == (jobs[i].Hash(), jobs[i].input)
  {
    seq(|jobs|, i requires 0 <= i < |jobs| => (jobs[i].Hash(), jobs[i].input))
  }

  // ----- tidying the batches -----

  predicate Earlier(a: Batch, b: Batch) {
    a.createdAt <= b.createdAt
  }

  /** The hashes no earlier batch, and no earlier place, has taken. */
  function TakeNew(hashes: seq<string>, taken: set<string>): seq<string> {
    if hashes == [] then []
    else if hashes[0] in taken then TakeNew(hashes[1..], taken)
    else [hashes[0]] + TakeNew(hashes[1..], taken + {hashes[0]})
  }

  function Tidy(sorted: seq<Batch>, seen: set<string>, taken: set<string>): seq<Batch> {
    if sorted == [] then []
    else if sorted[0].batchId in seen then Tidy(sorted[1..], seen, taken)
    else
      var hashes := TakeNew(sorted[0].hashes, taken);
      if hashes == [] then Tidy(sorted[1..], seen, taken)
      else
        [sorted[0].(hashes := hashes, verified := KeepMembers(sorted[0].verified, hashes))]
        + Tidy(sorted[1..], seen + {sorted[0].batchId}, taken + set h | h in hashes)
  }

  /** `normalizeLoadedBatches`. */
  function LoadBatches(raw: seq<Batch>): seq<Batch> {
    Filter(Open, Tidy(Sort(Earlier, raw), {}, {}))
  }

  /** Each loaded job is put in a batch, and names the batch it was put in. */
  function AssignJobs(jobs: seq<Job>, bs: seq<Batch>, now: string -> real): (r: (seq<Job>, seq<Batch>))
    ensures |r.0| == |jobs|
    decreases |jobs|
  {
    if jobs == [] then ([], bs)
    else
      var (homed, i) := EnsureHash(bs, jobs[0].Hash(), jobs[0].batchId, "", now(jobs[0].Hash()));
      var (rest, last) := AssignJobs(jobs[1..], homed, now);
      ([jobs[0].(batchId := homed[i].batchId)] + rest, last)
  }

  function AssignFailed(keys: seq<string>, bs: seq<Batch>, newId: string -> string, now: string -> real): seq<Batch>
    decreases |keys|
  {
    if keys == [] then bs
    else AssignFailed(keys[1..], EnsureHash(bs, keys[0], "", newId(keys[0]), now(keys[0])).0, newId, now)
  }

  function BackendOf(raw: Json): Option<string> {
    NonEmptyString(raw)
  }

  /** The payload is of this version and not from another backend instance. */
  predicate Accepts(raw: Json, backend: Option<string>) {
    && raw.Obj?
    && Field(raw.fields, "version") == Num(Finite(1.0))
    && (backend.Some? && BackendOf(Field(raw.fields, "backendInstanceId")).Some?
        ==> backend == BackendOf(Field(raw.fields, "backendInstanceId")))
  }

  /** What the parsers make of an accepted payload. */
  datatype Parsed = Parsed(
    jobs: seq<Job>, batches: seq<Batch>, failures: seq<(string, string)>, cachedInputs: seq<Input>)

  function ParsePayload(fields: map<string, Json>, coerce: Coercion): Parsed {
    Parsed(
      Numbered(Present(ParseEachJob(Items(Field(fields, "jobs")), coerce))),
      Present(ParseEachBatch(Items(Field(fields, "batches")), coerce)),
      ParseFailures(Items(Field(fields, "failed"))),
      ParseAll(Items(Field(fields, "cachedInputs")), coerce))
  }

  function FailuresOf(p: Parsed): JsMap<string> {
    SetAll(EmptyMap(), p.failures)
  }

  /** The jobs, each naming its batch, and the batches before the last filter. */
  function AssignAll(p: Parsed, newId: string -> string, now: string -> real): (r: (seq<Job>, seq<Batch>))
    ensures |r.0| == |p.jobs|
  {
    var (named, bs) := AssignJobs(p.jobs, LoadBatches(p.batches), now);
    (named, AssignFailed(FailuresOf(p).order, bs, newId, now))
  }

  function Build(p: Parsed, newId: string -> string, now: string -> real): Queue {
    var (jobs, bs) := AssignAll(p, newId, now);
    Queue(
      jobs, Filter(Open, bs), FailuresOf(p),
      SetAll(SetAll(EmptyMap(), Keyed(p.cachedInputs)), KeyedJobs(p.jobs)),
      false, [], |jobs|)
  }

  /** `loadPersistedState`: `None` stands for nothing stored, or text that is not JSON. */
  function Load(
      stored: Option<Json>, backend: Option<string>, coerce: Coercion, newId: string -> string, now: string -> real)
    : Queue
  {
    if stored.None? || !Accepts(stored.value, backend) then EmptyQueue()
    else Build(ParsePayload(stored.value.fields, coerce), newId, now)
  }
}
