/** A sound queue written to storage and loaded back. The page that loads it belongs to the same backend
    instance, or one of the two did not know its instance.

    What comes back is the queue with every job waiting, batches whose hashes are all verified gone, and
    failure reasons trimmed, in the same order. That holds exactly when every job and every failed hash
    had a batch: loading makes one for those that had none. A reloaded queue is sound in either case. */
module QueueRoundTrip {
  import opened Text
  import opened Lists
  import opened StableSort
  import opened QueueInput
  import opened QueueState
  import opened QueueInvariant
  import opened QueueTexts
  import opened QueueRuns
  import opened QueueStorage
  import opened QueueLoading
  import opened Wrappers

  // ----- each part of the payload reads back -----

  function ResetJobs(jobs: seq<Job>): (r: seq<Job>)
    ensures |r| == |jobs|
    ensures forall i :: 0 <= i < |jobs| ==> r[i] == Job(i, jobs[i].input, jobs[i].batchId, Queued, NoStage)
  {
    seq(|jobs|, i requires 0 <= i < |jobs| => Job(i, jobs[i].input, jobs[i].batchId, Queued, NoStage))
  }

  lemma JobCarries(j: Job)
    ensures Carries(JobFields(j), j.input)
    ensures Field(JobFields(j), "batchId") == Str(j.batchId)
  {
    FieldsCarry(j.input);
  }

  lemma ReadsJob(j: Job, coerce: Coercion)
    requires Canonical(j.input) && Clean(j.batchId)
    ensures ParseJob(Obj(JobFields(j)), coerce) == Some(Job(0, j.input, j.batchId, Queued, NoStage))
  {
    JobCarries(j);
    ReadsInput(j.input, JobFields(j), coerce);
    CleanReads(j.batchId);
  }

  lemma {:induction false} ReadsUnique(s: seq<string>, items: seq<Json>, seen: set<string>)
    requires NoDup(s) && forall h :: h in s ==> Clean(h) && h !in seen
    requires |items| == |s| && forall i :: 0 <= i < |s| ==> items[i] == Str(s[i])
    ensures UniqueStrings(items, seen) == s
  {
    if s != [] {
      assert s[0] in s;
      CleanReads(s[0]);
      ReadsUnique(s[1..], items[1..], seen + {s[0]});
    }
  }

  lemma {:induction false} KeepsAll(s: seq<string>, allowed: seq<string>)
    requires forall h :: h in s ==> h in allowed
    ensures KeepMembers(s, allowed) == s
  {
    if s != [] {
      KeepsAll(s[1..], allowed);
    }
  }

  lemma ReadsBatch(b: Batch, coerce: Coercion)
    requires BatchOk(b) && Clean(b.batchId) && forall h :: h in b.hashes ==> Clean(h)
    ensures ParseBatch(Obj(BatchFields(b)), coerce) == Some(b)
  {
    hide UniqueStrings, KeepMembers, NonEmptyString;
    CleanReads(b.batchId);
    ReadsUnique(b.hashes, EncodeStrings(b.hashes), {});
    ReadsUnique(b.verified, EncodeStrings(b.verified), {});
    KeepsAll(b.verified, b.hashes);
  }

  function TrimReasons(m: JsMap<string>): JsMap<string> {
    JsMap(m.order, map k | k in m.table :: Trim(m.table[k]))
  }

  lemma {:induction false} ReadsFailures(order: seq<string>, table: map<string, string>, raw: seq<Json>)
    requires forall k :: k in table ==> Clean(k) && Legible(table[k])
    requires raw == EncodeFailures(Entries(order, table))
    ensures ParseFailures(raw) == Entries(order, TrimReasons(JsMap(order, table)).table)
  {
    var trimmed := TrimReasons(JsMap(order, table)).table;
    if order != [] {
      var e := Entries(order, table);
      if order[0] in table {
        CleanReads(order[0]);
        assert e[1..] == Entries(order[1..], table);
        assert raw[1..] == EncodeFailures(e[1..]);
        assert raw[0] == Obj(FailureFields(e[0]));
        ReadsFailures(order[1..], table, raw[1..]);
        assert trimmed == TrimReasons(JsMap(order[1..], table)).table;
      } else {
        ReadsFailures(order[1..], table, raw);
        assert trimmed == TrimReasons(JsMap(order[1..], table)).table;
      }
    }
  }

  // ----- insertion-ordered maps rebuild from their entries -----

  function Restrict<V>(order: seq<string>, table: map<string, V>): map<string, V> {
    map k | k in order && k in table :: table[k]
  }

  lemma RestrictStep<V>(m: map<string, V>, order: seq<string>, table: map<string, V>)
    requires order != [] && order[0] in table
    ensures m[order[0] := table[order[0]]] + Restrict(order[1..], table) == m + Restrict(order, table)
  {
    assert forall k :: k in order <==> k == order[0] || k in order[1..];
  }

  lemma RestrictAll<V>(m: JsMap<V>)
    requires m.Valid()
    ensures map[] + Restrict(m.order, m.table) == m.table
  {
  }

  lemma SetAllStep<V>(m: JsMap<V>, order: seq<string>, table: map<string, V>)
    requires order != [] && order[0] in table
    requires order[0] !in m.table
    ensures SetAll(m, Entries(order, table))
         == SetAll(JsMap(m.order + [order[0]], m.table[order[0] := table[order[0]]]), Entries(order[1..], table))
  {
    var first := (order[0], table[order[0]]);
    assert ([first] + Entries(order[1..], table))[1..] == Entries(order[1..], table);
  }

  /** Setting entries whose keys are new appends the keys and adds just those values. */
  lemma {:induction false} SetAllNew<V>(m: JsMap<V>, order: seq<string>, table: map<string, V>)
    requires NoDup(order) && forall k :: k in order ==> k in table && k !in m.table
    ensures SetAll(m, Entries(order, table)) == JsMap(m.order + order, m.table + Restrict(order, table))
    decreases |order|
  {
    if order == [] {
      assert m.order + [] == m.order;
    } else {
      hide SetAll, Entries, Restrict, NoDup;
      var k0, rest := order[0], order[1..];
      NoDupHead(order);
      var next := JsMap(m.order + [k0], m.table[k0 := table[k0]]);
      SetAllNew(next, rest, table);
      SetAllStep(m, order, table);
      RestrictStep(m.table, order, table);
      assert m.order + [k0] + rest == m.order + order;
    }
  }

  lemma RebuildsMap<V>(m: JsMap<V>)
    requires m.Valid()
    ensures SetAll(EmptyMap(), Entries(m.order, m.table)) == m
  {
    hide SetAll, Entries, Restrict;
    SetAllNew(EmptyMap(), m.order, m.table);
    assert [] + m.order == m.order;
    RestrictAll(m);
  }

  lemma {:induction false} SetAllSame<V>(m: JsMap<V>, entries: seq<(string, V)>)
    requires forall i :: 0 <= i < |entries| ==> entries[i].0 in m.table && m.table[entries[i].0] == entries[i].1
    ensures SetAll(m, entries) == m
    decreases |entries|
  {
    if entries != [] {
      assert m.table[entries[0].0 := entries[0].1] == m.table;
      SetAllSame(m, entries[1..]);
    }
  }

  lemma {:induction false} EntriesIn<V>(order: seq<string>, table: map<string, V>)
    ensures forall e :: e in Entries(order, table) ==> e.0 in table && table[e.0] == e.1
  {
    if order != [] {
      EntriesIn(order[1..], table);
    }
  }

  // ----- batches and assignments are left as they were -----

  lemma SortKeepsOk(bs: seq<Batch>)
    requires BatchesOk(bs)
    ensures BatchesOk(Sort(Earlier, bs))
  {
    if bs != [] {
      OkTail(bs);
      SortKeepsOk(bs[1..]);
      InSort(Earlier, bs[1..]);
      var rest := Sort(Earlier, bs[1..]);
      forall i | 0 <= i < |rest| ensures Apart(bs[0], rest[i]) {
        assert rest[i] in rest;
        var k :| 0 <= k < |bs[1..]| && bs[1..][k] == rest[i];
        assert bs[k + 1] == rest[i];
      }
      InsertKeepsOk(bs[0], rest);
    }
  }

  lemma {:induction false} InsertKeepsOk(b: Batch, s: seq<Batch>)
    requires BatchOk(b) && BatchesOk(s) && forall i :: 0 <= i < |s| ==> Apart(b, s[i])
    ensures BatchesOk(Insert(Earlier, b, s))
  {
    if s == [] || Earlier(b, s[0]) {
    } else {
      OkTail(s);
      InsertKeepsOk(b, s[1..]);
      InsertMultiset(Earlier, b, s[1..]);
      var rest := Insert(Earlier, b, s[1..]);
      forall i | 0 <= i < |rest| ensures Apart(s[0], rest[i]) {
        assert rest[i] in multiset(rest);
        assert Apart(b, s[0]);
        if rest[i] != b {
          var k :| 0 <= k < |s[1..]| && s[1..][k] == rest[i];
          assert Apart(s[0], s[k + 1]);
        }
      }
    }
  }

  lemma {:induction false} TakeNewAll(hashes: seq<string>, taken: set<string>)
    requires NoDup(hashes) && forall h :: h in hashes ==> h !in taken
    ensures TakeNew(hashes, taken) == hashes
  {
    if hashes != [] {
      TakeNewAll(hashes[1..], taken + {hashes[0]});
    }
  }

  lemma {:induction false} TidyNothing(bs: seq<Batch>, seen: set<string>, taken: set<string>)
    requires BatchesOk(bs)
    requires forall i :: 0 <= i < |bs| ==> bs[i].batchId !in seen && forall h :: h in bs[i].hashes ==> h !in taken
    ensures Tidy(bs, seen, taken) == bs
  {
    if bs != [] {
      var b := bs[0];
      assert BatchOk(b);
      hide TakeNew, KeepMembers;
      TakeNewAll(b.hashes, taken);
      KeepsAll(b.verified, b.hashes);
      var more := taken + set h | h in b.hashes;
      forall i | 0 <= i < |bs[1..]|
        ensures bs[1..][i].batchId !in seen + {b.batchId} && forall h :: h in bs[1..][i].hashes ==> h !in more
      {
        assert Apart(bs[0], bs[i + 1]);
      }
      OkTail(bs);
      TidyNothing(bs[1..], seen + {b.batchId}, more);
      assert b.(hashes := b.hashes, verified := b.verified) == b;
    }
  }

  lemma LoadKeepsBatches(bs: seq<Batch>)
    requires BatchesOk(bs)
    ensures LoadBatches(bs) == Filter(Open, Sort(Earlier, bs))
  {
    SortKeepsOk(bs);
    TidyNothing(Sort(Earlier, bs), {}, {});
  }

  /** A hash of a batch that is not verified there is still listed once concluded batches go. */
  lemma StaysHomed(bs: seq<Batch>, h: string)
    requires Homed(bs, h) && !Verified(bs, h)
    ensures Homed(LoadBatchesOf(bs), h)
  {
    var k :| 0 <= k < |bs| && h in bs[k].hashes;
    assert Open(bs[k]);
    InSort(Earlier, bs);
    InFilter(Open, Sort(Earlier, bs));
    assert bs[k] in bs;
    assert bs[k] in LoadBatchesOf(bs);
  }

  function LoadBatchesOf(bs: seq<Batch>): seq<Batch> {
    Filter(Open, Sort(Earlier, bs))
  }

  lemma InLoaded(bs: seq<Batch>)
    ensures forall b :: b in LoadBatchesOf(bs) <==> b in bs && Open(b)
  {
    InSort(Earlier, bs);
    InFilter(Open, Sort(Earlier, bs));
  }

  lemma {:induction false} AssignJobsNothing(jobs: seq<Job>, bs: seq<Batch>, now: string -> real)
    requires forall i :: 0 <= i < |jobs| ==> Homed(bs, jobs[i].Hash()) && HomeIs(bs, jobs[i].Hash(), jobs[i].batchId)
    ensures AssignJobs(jobs, bs, now) == (jobs, bs)
    decreases |jobs|
  {
    if jobs != [] {
      var i := FindHash(bs, jobs[0].Hash());
      assert Homed(bs, jobs[0].Hash());
      assert bs[i].batchId == jobs[0].batchId;
      assert EnsureHash(bs, jobs[0].Hash(), jobs[0].batchId, "", now(jobs[0].Hash())) == (bs, i);
      AssignJobsNothing(jobs[1..], bs, now);
      assert AssignJobs(jobs[1..], bs, now) == (jobs[1..], bs);
      assert AssignJobs(jobs, bs, now) == ([jobs[0].(batchId := bs[i].batchId)] + jobs[1..], bs);
      assert [jobs[0]] + jobs[1..] == jobs;
    }
  }

  lemma {:induction false} AssignFailedNothing(keys: seq<string>, bs: seq<Batch>, newId: string -> string, now: string -> real)
    requires forall i :: 0 <= i < |keys| ==> Homed(bs, keys[i])
    ensures AssignFailed(keys, bs, newId, now) == bs
    decreases |keys|
  {
    if keys != [] {
      assert Homed(bs, keys[0]);
      AssignFailedNothing(keys[1..], bs, newId, now);
    }
  }

  // ----- the whole payload -----

  /** What storage holds of a queue, as the parsers see it. */
  function Payload(q: Queue): Parsed {
    Parsed(
      ResetJobs(q.jobs), q.batches,
      Entries(q.failed.order, TrimReasons(q.failed).table),
      Values(Entries(q.cached.order, q.cached.table)))
  }

  function PayloadFields(q: Queue, backend: Option<string>): map<string, Json> {
    Persist(q, backend).fields
  }

  lemma PersistedFields(q: Queue, backend: Option<string>)
    ensures var f := PayloadFields(q, backend);
            && Field(f, "version") == Num(Finite(1.0))
            && Field(f, "backendInstanceId") == (if backend.Some? then Str(backend.value) else Null)
            && Field(f, "jobs") == Arr(EncodeJobs(q.jobs))
            && Field(f, "batches") == Arr(EncodeBatches(q.batches))
            && Field(f, "cachedInputs") == Arr(EncodeInputs(Values(Entries(q.cached.order, q.cached.table))))
            && Field(f, "failed") == Arr(EncodeFailures(Entries(q.failed.order, q.failed.table)))
  {
  }

  /** A payload is accepted by a page that sees the same backend instance, or none. */
  lemma PersistedAccepted(q: Queue, wrote: Option<string>, reader: Option<string>)
    requires wrote.Some? ==> Clean(wrote.value)
    ensures Accepts(Persist(q, wrote), reader) <==> reader == None || wrote == None || reader == wrote
  {
    PersistedFields(q, wrote);
    if wrote.Some? {
      CleanReads(wrote.value);
    }
  }

  lemma JobsParse(q: Queue, coerce: Coercion)
    requires Sound(q)
    ensures Numbered(Present(ParseEachJob(EncodeJobs(q.jobs), coerce))) == ResetJobs(q.jobs)
  {
    var raw := EncodeJobs(q.jobs);
    var plain := seq(|q.jobs|, i requires 0 <= i < |q.jobs| => ResetJobs(q.jobs)[i].(serial := 0));
    forall i | 0 <= i < |q.jobs| ensures ParseEachJob(raw, coerce)[i] == Some(plain[i]) {
      ReadsJob(q.jobs[i], coerce);
    }
    AllPresent(ParseEachJob(raw, coerce), plain);
  }

  lemma BatchesParse(q: Queue, coerce: Coercion)
    requires Sound(q)
    ensures Present(ParseEachBatch(EncodeBatches(q.batches), coerce)) == q.batches
  {
    var raw := EncodeBatches(q.batches);
    forall i | 0 <= i < |q.batches| ensures ParseEachBatch(raw, coerce)[i] == Some(q.batches[i]) {
      ReadsBatch(q.batches[i], coerce);
    }
    AllPresent(ParseEachBatch(raw, coerce), q.batches);
  }

  lemma CachedParse(q: Queue, coerce: Coercion)
    requires Sound(q)
    ensures ParseAll(EncodeInputs(Values(Entries(q.cached.order, q.cached.table))), coerce)
            == Values(Entries(q.cached.order, q.cached.table))
  {
    var entries := Entries(q.cached.order, q.cached.table);
    var raw := EncodeInputs(Values(entries));
    EntriesIn(q.cached.order, q.cached.table);
    forall i | 0 <= i < |entries| ensures ParseEach(raw, coerce)[i] == Some(Values(entries)[i]) {
      assert entries[i] in entries;
      SurvivesIffCanonical(entries[i].1, coerce);
    }
    AllPresent(ParseEach(raw, coerce), Values(entries));
  }

  lemma PersistedParses(q: Queue, backend: Option<string>, coerce: Coercion)
    requires Sound(q)
    ensures ParsePayload(PayloadFields(q, backend), coerce) == Payload(q)
  {
    PersistedFields(q, backend);
    JobsParse(q, coerce);
    CachedParse(q, coerce);
    BatchesParse(q, coerce);
    ReadsFailures(q.failed.order, q.failed.table, EncodeFailures(Entries(q.failed.order, q.failed.table)));
  }

  lemma CachedRebuilds(q: Queue)
    requires Inv(q)
    ensures SetAll(SetAll(EmptyMap(), Keyed(Payload(q).cachedInputs)), KeyedJobs(Payload(q).jobs)) == q.cached
  {
    var entries := Entries(q.cached.order, q.cached.table);
    EntriesIn(q.cached.order, q.cached.table);
    forall i | 0 <= i < |entries| ensures Keyed(Values(entries))[i] == entries[i] {
      assert entries[i] in entries;
    }
    assert Keyed(Values(entries)) == entries;
    RebuildsMap(q.cached);
    SetAllSame(q.cached, KeyedJobs(ResetJobs(q.jobs)));
  }

  lemma FailedRebuilds(q: Queue)
    requires q.failed.Valid()
    ensures FailuresOf(Payload(q)) == TrimReasons(q.failed)
  {
    RebuildsMap(TrimReasons(q.failed));
  }

  /** Every job and every failed hash is listed by some batch. */
  ghost predicate AllHomed(q: Queue) {
    && (forall i :: 0 <= i < |q.jobs| ==> Homed(q.batches, q.jobs[i].Hash()))
    && (forall i :: 0 <= i < |q.failed.order| ==> Homed(q.batches, q.failed.order[i]))
  }

  /** The queue a reload is meant to bring back: every job waiting, concluded batches gone, the rest
      by age, failure reasons trimmed. */
  function Restored(q: Queue): Queue {
    Queue(ResetJobs(q.jobs), LoadBatchesOf(q.batches), TrimReasons(q.failed), q.cached, false, [], |q.jobs|)
  }

  lemma HomedRestores(q: Queue, newId: string -> string, now: string -> real)
    requires Inv(q) && AllHomed(q)
    ensures Build(Payload(q), newId, now) == Restored(q)
  {
    hide AssignJobs, AssignFailed, LoadBatches, Sort, Filter, Trim;
    var bs := LoadBatchesOf(q.batches);
    LoadKeepsBatches(q.batches);
    CachedRebuilds(q);
    FailedRebuilds(q);
    var jobs := ResetJobs(q.jobs);
    InLoaded(q.batches);
    forall i | 0 <= i < |jobs| ensures Homed(bs, jobs[i].Hash()) && HomeIs(bs, jobs[i].Hash(), jobs[i].batchId)
    {
      assert jobs[i].Hash() == q.jobs[i].Hash();
      StaysHomed(q.batches, q.jobs[i].Hash());
      assert forall k :: 0 <= k < |bs| ==> bs[k] in bs;
    }
    AssignJobsNothing(jobs, bs, now);
    forall i | 0 <= i < |q.failed.order| ensures Homed(bs, q.failed.order[i])
    {
      assert q.failed.Has(q.failed.order[i]);
      StaysHomed(q.batches, q.failed.order[i]);
    }
    AssignFailedNothing(q.failed.order, bs, newId, now);
    FilterAllOpen(Sort(Earlier, q.batches));
    FilterOpenNothing(bs);
  }

  lemma RestoredHomes(q: Queue)
    ensures forall h :: Homed(LoadBatchesOf(q.batches), h) ==> Homed(q.batches, h)
  {
    InLoaded(q.batches);
    forall h | Homed(LoadBatchesOf(q.batches), h) ensures Homed(q.batches, h) {
      var k :| 0 <= k < |LoadBatchesOf(q.batches)| && h in LoadBatchesOf(q.batches)[k].hashes;
      assert LoadBatchesOf(q.batches)[k] in q.batches;
    }
  }

  lemma PayloadOk(q: Queue)
    requires Sound(q)
    ensures ParsedOk(Payload(q))
  {
  }

  lemma RestoredHomed(q: Queue, newId: string -> string, now: string -> real)
    requires Sound(q) && GoodIds(Payload(q), newId, now)
    requires Build(Payload(q), newId, now) == Restored(q)
    ensures AllHomed(q)
  {
    hide Build, Sound, LoadBatchesOf, GoodIds, ParsedOk;
    PayloadOk(q);
    BuildsWellFormed(Payload(q), newId, now);
    RestoredHomes(q);
    assert forall i :: 0 <= i < |q.jobs| ==> Restored(q).jobs[i].Hash() == q.jobs[i].Hash();
  }

  /** A sound queue written out and loaded by a page of the same backend comes back as it was, up to
      `Restored`, exactly when every job and every failed hash had a batch. */
  lemma RoundTrip(
      q: Queue, wrote: Option<string>, reader: Option<string>, coerce: Coercion,
      newId: string -> string, now: string -> real)
    requires Sound(q) && (wrote.Some? ==> Clean(wrote.value))
    requires reader == None || wrote == None || reader == wrote
    requires GoodIds(Payload(q), newId, now)
    ensures Load(Some(Persist(q, wrote)), reader, coerce, newId, now) == Restored(q) <==> AllHomed(q)
  {
    LoadsPayload(q, wrote, reader, coerce, newId, now);
    if AllHomed(q) {
      HomedRestores(q, newId, now);
    }
    if Build(Payload(q), newId, now) == Restored(q) {
      RestoredHomed(q, newId, now);
    }
  }

  lemma LoadsPayload(
      q: Queue, wrote: Option<string>, reader: Option<string>, coerce: Coercion,
      newId: string -> string, now: string -> real)
    requires Sound(q) && (wrote.Some? ==> Clean(wrote.value))
    requires reader == None || wrote == None || reader == wrote
    ensures Load(Some(Persist(q, wrote)), reader, coerce, newId, now) == Build(Payload(q), newId, now)
  {
    PersistedAccepted(q, wrote, reader);
    PersistedParses(q, wrote, coerce);
    assert Persist(q, wrote) == Obj(PayloadFields(q, wrote));
  }

  // ----- a reloaded queue is sound again -----

  lemma {:induction false} AssignJobsTexts(jobs: seq<Job>, bs: seq<Batch>, now: string -> real, clean: string -> bool)
    requires BatchTexts(bs, clean) && !clean("")
    requires forall i :: 0 <= i < |jobs| ==> clean(jobs[i].Hash()) && clean(jobs[i].batchId)
    ensures var (named, last) := AssignJobs(jobs, bs, now);
            BatchTexts(last, clean) && forall i :: 0 <= i < |named| ==> clean(named[i].batchId)
    decreases |jobs|
  {
    if jobs != [] {
      var (homed, k) := EnsureHash(bs, jobs[0].Hash(), jobs[0].batchId, "", now(jobs[0].Hash()));
      assert BatchTexts(homed, clean);
      AssignJobsTexts(jobs[1..], homed, now, clean);
    }
  }

  lemma {:induction false} AssignFailedTexts(
      keys: seq<string>, bs: seq<Batch>, newId: string -> string, now: string -> real, clean: string -> bool)
    requires BatchTexts(bs, clean)
    requires forall i :: 0 <= i < |keys| ==> clean(keys[i]) && clean(newId(keys[i]))
    ensures BatchTexts(AssignFailed(keys, bs, newId, now), clean)
    decreases |keys|
  {
    if keys != [] {
      var homed := EnsureHash(bs, keys[0], "", newId(keys[0]), now(keys[0])).0;
      assert BatchTexts(homed, clean);
      AssignFailedTexts(keys[1..], homed, newId, now, clean);
    }
  }

  lemma LoadedTexts(bs: seq<Batch>, clean: string -> bool)
    requires BatchTexts(bs, clean)
    ensures BatchTexts(LoadBatchesOf(bs), clean)
  {
    InLoaded(bs);
    assert forall i :: 0 <= i < |LoadBatchesOf(bs)| ==> LoadBatchesOf(bs)[i] in LoadBatchesOf(bs);
  }

  lemma LoadedVerified(bs: seq<Batch>)
    ensures forall h :: Verified(LoadBatchesOf(bs), h) ==> Verified(bs, h)
  {
    InLoaded(bs);
    forall h | Verified(LoadBatchesOf(bs), h) ensures Verified(bs, h) {
      var k :| 0 <= k < |LoadBatchesOf(bs)| && h in LoadBatchesOf(bs)[k].verified;
      assert LoadBatchesOf(bs)[k] in bs;
    }
  }

  /** `r` is `q` after a reload, whatever batches its jobs ended up in. */
  ghost predicate Reborn(q: Queue, r: Queue) {
    && r.runs == [] && !r.isProcessing && r.nextSerial == |r.jobs| == |q.jobs|
    && (forall i :: 0 <= i < |q.jobs| ==> r.jobs[i] == Job(i, q.jobs[i].input, r.jobs[i].batchId, Queued, NoStage))
    && r.cached == q.cached && r.failed == TrimReasons(q.failed)
    && BatchesOk(r.batches)
    && (forall i :: 0 <= i < |r.jobs| ==> HomeIs(r.batches, r.jobs[i].Hash(), r.jobs[i].batchId))
    && (forall h :: Verified(r.batches, h) ==> Verified(q.batches, h))
  }

  lemma RebornInv(q: Queue, r: Queue)
    requires Inv(q) && Reborn(q, r)
    ensures Inv(r)
  {
    forall i | 0 <= i < |r.jobs| ensures r.jobs[i].Hash() == q.jobs[i].Hash() && r.jobs[i].serial == i {
    }
    RebornJobs(q, r);
    RebornRest(q, r);
  }

  lemma RebornJobs(q: Queue, r: Queue)
    requires JobsOk(q) && Reborn(q, r)
    ensures JobsOk(r)
  {
    forall i | 0 <= i < |r.jobs| ensures r.jobs[i].Hash() == q.jobs[i].Hash() {
    }
  }

  lemma RebornRest(q: Queue, r: Queue)
    requires CacheOk(q) && Exclusive(q) && Reborn(q, r)
    ensures CacheOk(r) && Exclusive(r) && HomesOk(r)
  {
    forall i | 0 <= i < |r.jobs| ensures r.jobs[i].Hash() == q.jobs[i].Hash() && r.jobs[i].input == q.jobs[i].input {
    }
  }

  lemma BuildReborn(q: Queue, newId: string -> string, now: string -> real)
    requires Sound(q) && GoodIds(Payload(q), newId, now)
    ensures Reborn(q, Build(Payload(q), newId, now))
  {
    hide GoodIds, ParsedOk;
    PayloadOk(q);
    BuildsWellFormed(Payload(q), newId, now);
    CachedRebuilds(q);
    FailedRebuilds(q);
    LoadKeepsBatches(q.batches);
    LoadedVerified(q.batches);
  }

  lemma RebornTexts(
      q: Queue, r: Queue, clean: string -> bool, canonical: Input -> bool, legible: string -> bool)
    requires Texts(q, clean, canonical, legible) && Reborn(q, r)
    requires forall k :: k in q.failed.table ==> legible(Trim(q.failed.table[k]))
    requires BatchTexts(r.batches, clean) && forall i :: 0 <= i < |r.jobs| ==> clean(r.jobs[i].batchId)
    ensures Texts(r, clean, canonical, legible)
  {
  }

  lemma BuildTexts(
      q: Queue, newId: string -> string, now: string -> real,
      clean: string -> bool, canonical: Input -> bool, legible: string -> bool)
    requires Texts(q, clean, canonical, legible) && !clean("") && BatchesOk(q.batches) && q.failed.Valid()
    requires forall i :: 0 <= i < |q.failed.order| ==> clean(newId(q.failed.order[i]))
    ensures var (named, bs) := AssignAll(Payload(q), newId, now);
            BatchTexts(bs, clean) && forall i :: 0 <= i < |named| ==> clean(named[i].batchId)
  {
    FailedRebuilds(q);
    LoadKeepsBatches(q.batches);
    LoadedTexts(q.batches, clean);
    AssignJobsTexts(ResetJobs(q.jobs), LoadBatchesOf(q.batches), now, clean);
    var bs := AssignJobs(ResetJobs(q.jobs), LoadBatchesOf(q.batches), now).1;
    AssignFailedTexts(q.failed.order, bs, newId, now, clean);
  }

  lemma BuiltNames(q: Queue, newId: string -> string, now: string -> real)
    requires Sound(q) && GoodIds(Payload(q), newId, now)
    ensures var r := Build(Payload(q), newId, now);
            BatchTexts(r.batches, Clean) && forall i :: 0 <= i < |r.jobs| ==> Clean(r.jobs[i].batchId)
  {
    FailedRebuilds(q);
    BuildTexts(q, newId, now, Clean, Canonical, Legible);
    PayloadOk(q);
    BuildsWellFormed(Payload(q), newId, now);
  }

  lemma BuildSound(q: Queue, newId: string -> string, now: string -> real)
    requires Sound(q) && GoodIds(Payload(q), newId, now)
    ensures Sound(Build(Payload(q), newId, now))
  {
    BuildReborn(q, newId, now);
    BuiltNames(q, newId, now);
    RebornSound(q, Build(Payload(q), newId, now));
  }

  lemma RebornSound(q: Queue, r: Queue)
    requires Sound(q) && Reborn(q, r)
    requires BatchTexts(r.batches, Clean) && forall i :: 0 <= i < |r.jobs| ==> Clean(r.jobs[i].batchId)
    ensures Sound(r)
  {
    RebornInv(q, r);
    forall k | k in q.failed.table ensures Legible(Trim(q.failed.table[k])) {
      TrimFixes(Trim(q.failed.table[k]));
    }
    RebornTexts(q, r, Clean, Canonical, Legible);
  }

  /** Reloading what a sound queue stored gives a sound queue, homed or not: every guarantee about
      runs carries over a page reload. */
  lemma ReloadSound(
      q: Queue, wrote: Option<string>, reader: Option<string>, coerce: Coercion,
      newId: string -> string, now: string -> real)
    requires Sound(q) && (wrote.Some? ==> Clean(wrote.value)) && GoodIds(Payload(q), newId, now)
    ensures Sound(Load(Some(Persist(q, wrote)), reader, coerce, newId, now))
  {
    PersistedAccepted(q, wrote, reader);
    if Accepts(Persist(q, wrote), reader) {
      LoadsPayload(q, wrote, reader, coerce, newId, now);
      BuildSound(q, newId, now);
    } else {
      EmptyIsSound();
    }
  }
}
