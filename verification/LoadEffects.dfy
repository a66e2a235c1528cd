/** What loading makes of any stored payload, its own or not: which payloads are refused, and which jobs,
    failures and inputs come back (wevibe-dashboard/lib/verify-queue.ts). */
module LoadEffects {
  import opened Text
  import opened Lists
  import opened QueueInput
  import opened QueueState
  import opened QueueStorage
  import opened Wrappers

  /** A payload of another version, or one that names another backend instance than the page's, is forgotten. */
  lemma LoadForgets(fields: map<string, Json>, backend: Option<string>, coerce: Coercion,
                    newId: string -> string, now: string -> real)
    ensures (Field(fields, "version") != Num(Finite(1.0))
             || (backend.Some? && exists s :: Field(fields, "backendInstanceId") == Str(s) && Trim(s) != ""
                                              && Trim(s) != backend.value))
            ==> Load(Some(Obj(fields)), backend, coerce, newId, now) == EmptyQueue()
  {
  }

  /** An entry for the key that no later entry replaces. */
  ghost predicate LastFor<V>(entries: seq<(string, V)>, k: nat) {
    && k < |entries|
    && forall j :: k < j < |entries| ==> entries[j].0 != entries[k].0
  }

  ghost predicate Keys<V>(entries: seq<(string, V)>, key: string) {
    exists k :: 0 <= k < |entries| && entries[k].0 == key
  }

  lemma {:induction false} SetAllHas<V>(m: JsMap<V>, entries: seq<(string, V)>, key: string)
    ensures SetAll(m, entries).Has(key) <==> m.Has(key) || Keys(entries, key)
    ensures m.Has(key) && !Keys(entries, key) ==> SetAll(m, entries).table[key] == m.table[key]
    decreases |entries|
  {
    if entries != [] {
      var rest := entries[1..];
      SetAllHas(m.Set(entries[0].0, entries[0].1), rest, key);
      assert Keys(entries, key) <==> entries[0].0 == key || Keys(rest, key) by {
        if k :| 0 <= k < |entries| && entries[k].0 == key {
          assert k > 0 ==> rest[k - 1] == entries[k];
        }
        if k :| 0 <= k < |rest| && rest[k].0 == key {
          assert entries[k + 1] == rest[k];
        }
      }
    }
  }

  lemma {:induction false} SetAllLast<V>(m: JsMap<V>, entries: seq<(string, V)>, k: nat)
    requires LastFor(entries, k)
    ensures SetAll(m, entries).Has(entries[k].0) && SetAll(m, entries).table[entries[k].0] == entries[k].1
    decreases |entries|
  {
    var rest := entries[1..];
    var next := m.Set(entries[0].0, entries[0].1);
    if k == 0 {
      assert !Keys(rest, entries[0].0) by {
        assert forall j :: 0 <= j < |rest| ==> rest[j] == entries[j + 1];
      }
      SetAllHas(next, rest, entries[0].0);
    } else {
      var k1 := k - 1;
      assert rest[k1] == entries[k];
      assert forall j :: k1 < j < |rest| ==> rest[j] == entries[j + 1];
      SetAllLast(next, rest, k1);
    }
  }

  // ----- jobs -----

  lemma {:induction false} AssignedInputs(jobs: seq<Job>, bs: seq<Batch>, now: string -> real)
    ensures var named := AssignJobs(jobs, bs, now).0;
            forall i :: 0 <= i < |jobs| ==> named[i] == jobs[i].(batchId := named[i].batchId)
    decreases |jobs|
  {
    if jobs != [] {
      var (homed, i) := EnsureHash(bs, jobs[0].Hash(), jobs[0].batchId, "", now(jobs[0].Hash()));
      AssignedInputs(jobs[1..], homed, now);
    }
  }

  lemma ParsedInput(raw: Json, coerce: Coercion)
    ensures var j := ParseJob(raw, coerce);
            && (j.Some? <==> ParseInput(raw, coerce).Some?)
            && (j.Some? ==> Some(j.value.input) == ParseInput(raw, coerce) && j.value.status == Queued && j.value.stage == NoStage)
  {
    hide ParseInput;
  }

  ghost predicate Waits(j: Job, input: Input) {
    j.input == input && j.status == Queued && j.stage == NoStage
  }

  lemma {:induction false} PresentWaits(jobs: seq<Option<Job>>, inputs: seq<Option<Input>>)
    requires |jobs| == |inputs|
    requires forall i :: 0 <= i < |jobs| ==>
               (jobs[i].Some? <==> inputs[i].Some?) && (jobs[i].Some? ==> Waits(jobs[i].value, inputs[i].value))
    ensures |Present(jobs)| == |Present(inputs)|
    ensures forall i :: 0 <= i < |Present(jobs)| ==> Waits(Present(jobs)[i], Present(inputs)[i])
  {
    if jobs != [] {
      hide Waits;
      PresentWaits(jobs[1..], inputs[1..]);
    }
  }

  /** Every stored job that parses comes back, in order, waiting, and with its input as parsed; nothing runs. */
  lemma LoadedJobs(fields: map<string, Json>, coerce: Coercion, newId: string -> string, now: string -> real)
    ensures var inputs := ParseAll(Items(Field(fields, "jobs")), coerce);
            var q := Build(ParsePayload(fields, coerce), newId, now);
            && |q.jobs| == |inputs| && q.runs == [] && !q.isProcessing
            && forall i :: 0 <= i < |inputs| ==>
                 q.jobs[i].input == inputs[i] && q.jobs[i].status == Queued && q.jobs[i].stage == NoStage
                 && q.jobs[i].serial == i
  {
    var raw := Items(Field(fields, "jobs"));
    var p := ParsePayload(fields, coerce);
    forall i | 0 <= i < |raw|
      ensures var (job, input) := (ParseJob(raw[i], coerce), ParseInput(raw[i], coerce));
              (job.Some? <==> input.Some?) && (job.Some? ==> Waits(job.value, input.value))
    {
      ParsedInput(raw[i], coerce);
    }
    PresentWaits(ParseEachJob(raw, coerce), ParseEach(raw, coerce));
    AssignedInputs(p.jobs, LoadBatches(p.batches), now);
    hide ParseInput, ParseJob, LoadBatches, AssignFailed, SetAll;
  }

  // ----- failures and inputs -----

  /** The failures stored, each hash with the reason stored last for it. */
  lemma LoadedFailures(p: Parsed, newId: string -> string, now: string -> real)
    ensures var q := Build(p, newId, now);
            && (forall h :: q.failed.Has(h) <==> Keys(p.failures, h))
            && forall k: nat :: LastFor(p.failures, k) ==>
                 q.failed.Has(p.failures[k].0) && q.failed.table[p.failures[k].0] == p.failures[k].1
  {
    forall h ensures FailuresOf(p).Has(h) <==> Keys(p.failures, h)
    {
      SetAllHas(EmptyMap<string>(), p.failures, h);
    }
    forall k: nat | LastFor(p.failures, k)
      ensures FailuresOf(p).Has(p.failures[k].0) && FailuresOf(p).table[p.failures[k].0] == p.failures[k].1
    {
      SetAllLast(EmptyMap<string>(), p.failures, k);
    }
    hide SetAll, AssignAll, Keys, LastFor;
  }

  /** A job's own input is kept for its hash; any other hash keeps the input stored last for it. */
  lemma LoadedInputs(p: Parsed, newId: string -> string, now: string -> real)
    ensures var q := Build(p, newId, now);
            var own := KeyedJobs(p.jobs);
            var stored := Keyed(p.cachedInputs);
            && (forall h :: q.cached.Has(h) <==> Keys(own, h) || Keys(stored, h))
            && (forall k: nat :: LastFor(own, k) ==>
                  q.cached.Has(own[k].0) && q.cached.table[own[k].0] == p.jobs[k].input)
            && forall k: nat :: LastFor(stored, k) && !Keys(own, stored[k].0) ==>
                 q.cached.Has(stored[k].0) && q.cached.table[stored[k].0] == p.cachedInputs[k]
  {
    var own := KeyedJobs(p.jobs);
    var stored := Keyed(p.cachedInputs);
    var first := SetAll(EmptyMap<Input>(), stored);
    var all := SetAll(first, own);
    assert Build(p, newId, now).cached == all;
    hide Build;
    forall h ensures all.Has(h) <==> Keys(own, h) || Keys(stored, h)
    {
      SetAllHas(EmptyMap<Input>(), stored, h);
      SetAllHas(first, own, h);
    }
    forall k: nat | LastFor(own, k) ensures all.Has(own[k].0) && all.table[own[k].0] == p.jobs[k].input
    {
      SetAllLast(first, own, k);
    }
    forall k: nat | LastFor(stored, k) && !Keys(own, stored[k].0)
      ensures all.Has(stored[k].0) && all.table[stored[k].0] == p.cachedInputs[k]
    {
      SetAllLast(EmptyMap<Input>(), stored, k);
      SetAllHas(first, own, stored[k].0);
    }
    hide SetAll, Keys, LastFor;
  }

  // ----- what parsing keeps of an entry -----

  ghost predicate Texty(raw: Json) {
    raw.Str? && Trim(raw.s) != ""
  }

  /** An input needs an org, a hash, a ciphertext and a wrapped key that are texts and not blank, and an epoch that
      is a finite number; the texts are kept trimmed. */
  lemma ParsesExactly(fields: map<string, Json>, coerce: Coercion)
    ensures var parsed := ParseInput(Obj(fields), coerce);
            && (parsed.Some? <==>
                  && Texty(Field(fields, "orgId")) && Texty(Field(fields, "submissionHash"))
                  && Texty(Field(fields, "ciphertextHex")) && Texty(Field(fields, "wrappedDekMod"))
                  && ToNumber(Field(fields, "epochId"), coerce).Finite?)
            && (parsed.Some? ==>
                  var input := parsed.value;
                  && input.orgId == Trim(fields["orgId"].s) && input.submissionHash == Trim(fields["submissionHash"].s)
                  && input.ciphertextHex == Trim(fields["ciphertextHex"].s)
                  && input.wrappedDekMod == Trim(fields["wrappedDekMod"].s)
                  && Finite(input.epochId) == ToNumber(Field(fields, "epochId"), coerce))
  {
    hide Trim, KeywordWeights, ExcludedSuggestions, StackHint;
  }

  /** A keyword without a finite base weight takes its weight for it, and an exclusion without a reason is called
      "excluded"; a reason given is kept as it is, blanks and all. */
  lemma DefaultsExactly(keyword: string, weight: real, rest: map<string, Json>, coerce: Coercion)
    requires Trim(keyword) != "" && "keyword" !in rest && "weight" !in rest
    ensures var raw := Obj(rest["keyword" := Str(keyword)]["weight" := Num(Finite(weight))]);
            var base := ToNumber(Field(rest, "base_weight"), coerce);
            var baseWeight := if base.Finite? then base.value else weight;
            && ParseWeight(raw, coerce) == Some(Weight(Trim(keyword), weight, baseWeight))
            && ParseSuggestion(raw, coerce)
               == Some(Suggestion(Trim(keyword), weight, baseWeight,
                                  if Texty(Field(rest, "rationale")) then rest["rationale"].s else "excluded"))
  {
    hide Trim;
  }

  /** A job without a batch id of its own goes to one named after its hash. */
  lemma LegacyBatch(fields: map<string, Json>, coerce: Coercion)
    requires ParseInput(Obj(fields), coerce).Some?
    ensures ParseJob(Obj(fields), coerce).Some?
    ensures ParseJob(Obj(fields), coerce).value.batchId
         == if Texty(Field(fields, "batchId")) then Trim(fields["batchId"].s)
            else "legacy-" + ParseInput(Obj(fields), coerce).value.submissionHash
  {
    hide Trim, ParseInput;
  }
}
