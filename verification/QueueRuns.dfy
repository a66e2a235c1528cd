/** The verification queue over whole runs: public calls and settling awaits in any order an
    adversary likes. */
module QueueRuns {
  import opened Text
  import opened Lists
  import opened QueueInput
  import opened QueueState
  import opened QueueInvariant
  import opened QueueTexts
  import opened Wrappers

  /** A public call, or an awaited promise settling for run `r`. Each carries the random batch id and
      the clock it would read, and whether the tool server is connected when `processNext` asks. */
  datatype Event =
    | CallEnqueue(raw: seq<Json>, newId: string, now: real, connected: bool)
    | CallResume(connected: bool)
    | CallRetry(hash: string, newId: string, now: real, connected: bool)
    | CallRemove(hash: string)
    | CallReconcile(hashes: seq<string>)
    | Settled(r: nat, reply: Reply, newId: string, now: real, connected: bool)

  predicate Legible(reason: string) {
    Trim(reason) != ""
  }

  /** The environment's side: random ids are not in use, and only a run in flight can go on. */
  ghost predicate Legal(q: Queue, e: Event) {
    match e
    case CallEnqueue(_, newId, _, _) => Clean(newId) && UnusedId(q.batches, newId)
    case CallRetry(_, newId, _, _) => Clean(newId) && UnusedId(q.batches, newId)
    case Settled(r, _, newId, _, _) => r < |q.runs| && Clean(newId) && UnusedId(q.batches, newId)
    case _ => true
  }

  function Step(q: Queue, e: Event, coerce: Coercion): Queue
    requires e.Settled? ==> e.r < |q.runs|
  {
    match e
    case CallEnqueue(raw, newId, now, connected) => Enqueue(q, raw, coerce, newId, now, connected)
    case CallResume(connected) => Start(q, connected)
    case CallRetry(hash, newId, now, connected) => Retry(q, hash, newId, now, connected)
    case CallRemove(hash) => Remove(q, hash)
    case CallReconcile(hashes) => Reconcile(q, hashes)
    case Settled(r, reply, newId, now, connected) => Settle(q, r, reply, newId, now, connected)
  }

  ghost predicate LegalRun(q: Queue, es: seq<Event>, coerce: Coercion)
    decreases |es|
  {
    es != [] ==> Legal(q, es[0]) && LegalRun(Step(q, es[0], coerce), es[1..], coerce)
  }

  ghost function Play(q: Queue, es: seq<Event>, coerce: Coercion): Queue
    requires LegalRun(q, es, coerce)
    decreases |es|
  {
    if es == [] then q else Play(Step(q, es[0], coerce), es[1..], coerce)
  }

  ghost predicate Sound(q: Queue) {
    Inv(q) && Texts(q, Clean, Canonical, Legible)
  }

  lemma ReasonLegible(message: Option<string>)
    ensures Legible(Reason(message))
  {
    TrimFixes("Unknown verification error");
  }

  lemma ParseAllCanonical(raw: seq<Json>, coerce: Coercion)
    ensures forall i :: i in ParseAll(raw, coerce) ==> Canonical(i)
  {
    InPresent(ParseEach(raw, coerce));
    forall i | i in ParseAll(raw, coerce) ensures Canonical(i) {
      var k :| 0 <= k < |raw| && ParseEach(raw, coerce)[k] == Some(i);
      ParsedIsCanonical(raw[k], coerce);
    }
  }

  lemma EnqueueTexts(q: Queue, raw: seq<Json>, coerce: Coercion, newId: string, now: real, connected: bool)
    requires Texts(q, Clean, Canonical, Legible) && Clean(newId)
    ensures Texts(Enqueue(q, raw, coerce, newId, now, connected), Clean, Canonical, Legible)
  {
    var accepted := Accepted(ParseAll(raw, coerce), Blocked(q));
    if accepted != [] {
      AcceptedFacts(ParseAll(raw, coerce), Blocked(q));
      ParseAllCanonical(raw, coerce);
      var homed := q.(batches := q.batches + [Batch(newId, now, HashesOf(accepted), [])]);
      PushAllTexts(homed, accepted, newId, Clean, Canonical, Legible);
      StartTexts(PushAll(homed, accepted, newId), connected, Clean, Canonical, Legible);
    }
  }

  lemma StepKeepsTexts(q: Queue, e: Event, coerce: Coercion)
    requires Sound(q) && Legal(q, e)
    ensures Texts(Step(q, e, coerce), Clean, Canonical, Legible)
  {
    match e
    case CallEnqueue(raw, newId, now, connected) => EnqueueTexts(q, raw, coerce, newId, now, connected);
    case CallResume(connected) => StartTexts(q, connected, Clean, Canonical, Legible);
    case CallRetry(hash, newId, now, connected) => RetryTexts(q, hash, newId, now, connected, Clean, Canonical, Legible);
    case CallRemove(hash) => RemoveTexts(q, hash, Clean, Canonical, Legible);
    case CallReconcile(hashes) => DropSettledTexts(q.batches, PendingSet(hashes), Clean);
    case Settled(r, reply, newId, now, connected) =>
      if reply.Threw? {
        ReasonLegible(reply.message);
      }
      SettleTexts(q, r, reply, newId, now, connected, Clean, Canonical, Legible);
  }

  lemma StepKeepsInv(q: Queue, e: Event, coerce: Coercion)
    requires Sound(q) && Legal(q, e)
    ensures Inv(Step(q, e, coerce))
  {
    match e
    case CallEnqueue(raw, newId, now, connected) => EnqueueKeeps(q, raw, coerce, newId, now, connected);
    case CallResume(connected) => StartKeeps(q, connected);
    case CallRetry(hash, newId, now, connected) => RetryKeeps(q, hash, newId, now, connected);
    case CallRemove(hash) => RemoveKeeps(q, hash);
    case CallReconcile(hashes) => ReconcileKeeps(q, hashes);
    case Settled(r, reply, newId, now, connected) => SettleKeeps(q, r, reply, newId, now, connected);
  }

  /** From a sound queue, the empty one to begin with, every legal run stays sound. */
  lemma {:induction false} RunsStaySound(q: Queue, es: seq<Event>, coerce: Coercion)
    requires Sound(q) && LegalRun(q, es, coerce)
    ensures Sound(Play(q, es, coerce))
    decreases |es|
  {
    if es != [] {
      StepKeepsInv(q, es[0], coerce);
      StepKeepsTexts(q, es[0], coerce);
      RunsStaySound(Step(q, es[0], coerce), es[1..], coerce);
    }
  }

  lemma EmptyIsSound()
    ensures Sound(EmptyQueue())
  {
  }

  // ----- progress -----

  /** A job waits and nothing is running. */
  ghost predicate Stalled(q: Queue) {
    !q.isProcessing && exists i :: 0 <= i < |q.jobs| && q.jobs[i].status == Queued
  }

  /** The call gets as far as `processNext`. An enqueue that takes no input, and a retry of a hash
      with neither a job nor a cached input, return before it. */
  ghost predicate ReachesNext(q: Queue, e: Event, coerce: Coercion)
    requires e.Settled? ==> e.r < |q.runs|
  {
    match e
    case CallEnqueue(raw, _, _, _) => Accepted(ParseAll(raw, coerce), Blocked(q)) != []
    case CallResume(_) => true
    case CallRetry(hash, _, _, _) => Trim(hash) != "" && (HasJob(q.jobs, Trim(hash)) || q.cached.Has(Trim(hash)))
    case Settled(r, reply, _, _, _) => reply.Threw? || q.runs[r].at == AtVerify
    case _ => false
  }

  lemma StartNeverStalls(q: Queue)
    ensures !Stalled(Start(q, true))
  {
    var after := Start(q, true);
    if FindQueued(q.jobs) == |q.jobs| {
      assert forall i :: 0 <= i < |q.jobs| ==> q.jobs[i].status != Queued;
    }
  }

  /** After an enqueue, resume, retry or settled await while connected, no job is left waiting with
      nothing in flight, exactly when the call reached `processNext` or nothing was waiting before. */
  lemma ProgressExact(q: Queue, e: Event, coerce: Coercion)
    requires Sound(q) && Legal(q, e)
    requires !e.CallRemove? && !e.CallReconcile? && e.connected
    ensures !Stalled(Step(q, e, coerce)) <==> ReachesNext(q, e, coerce) || !Stalled(q)
  {
    hide Sound, Retry, PushAll;
    match e
    case CallEnqueue(raw, newId, now, _) =>
      var accepted := Accepted(ParseAll(raw, coerce), Blocked(q));
      if accepted != [] {
        StartNeverStalls(PushAll(q.(batches := q.batches + [Batch(newId, now, HashesOf(accepted), [])]), accepted, newId));
      }
    case CallResume(_) => StartNeverStalls(q);
    case CallRetry(hash, newId, now, _) => RetryProgress(q, hash, newId, now);
    case Settled(r, reply, newId, now, _) =>
      if reply.Threw? {
        StartNeverStalls(Fail(q, r, Reason(reply.message)));
      } else if q.runs[r].at == AtVerify {
        StartNeverStalls(Succeed(q, r, newId, now));
      }
  }

  lemma RetryProgress(q: Queue, hash: string, newId: string, now: real)
    ensures var h := Trim(hash);
            if h != "" && (HasJob(q.jobs, h) || q.cached.Has(h)) then !Stalled(Retry(q, hash, newId, now, true))
            else Stalled(Retry(q, hash, newId, now, true)) <==> Stalled(q)
  {
    var h := Trim(hash);
    var cleared := q.(failed := q.failed.Delete(h));
    if h == "" {
    } else if HasJob(q.jobs, h) {
      StartNeverStalls(cleared);
    } else if q.cached.Has(h) {
      var i := FindHash(q.batches, h);
      if i < |q.batches| {
        var b := q.batches[i];
        var bs := q.batches[i := b.(verified := Without(b.verified, h))];
        StartNeverStalls(PushJob(cleared.(batches := bs), q.cached.table[h], b.batchId));
      } else {
        var bs := q.batches + [Batch(newId, now, [h], [])];
        StartNeverStalls(PushJob(cleared.(batches := bs), q.cached.table[h], newId));
      }
    }
  }

  /** The queue after its first enqueue, of one input, while disconnected. */
  function OneWaiting(input: Input, id: string, now: real): Queue {
    Queue(
      [Job(0, input, id, Queued, NoStage)], [Batch(id, now, [input.submissionHash], [])],
      EmptyMap(), EmptyMap().Set(input.submissionHash, input), false, [], 1)
  }

  lemma FirstEnqueue(raw: seq<Json>, input: Input, id: string, now: real, coerce: Coercion)
    requires ParseAll(raw, coerce) == [input]
    ensures Enqueue(EmptyQueue(), raw, coerce, id, now, false) == OneWaiting(input, id, now)
  {
    FirstAccepted(input);
    var homed := EmptyQueue().(batches := EmptyQueue().batches + [Batch(id, now, HashesOf([input]), [])]);
    PushOne(homed, input, id);
    FirstPush(input, id, now);
  }

  lemma FirstPush(input: Input, id: string, now: real)
    ensures PushFresh(EmptyQueue().(batches := EmptyQueue().batches + [Batch(id, now, HashesOf([input]), [])]), input, id)
            == OneWaiting(input, id, now)
  {
    assert HashesOf([input]) == [input.submissionHash];
  }

  lemma FirstAccepted(input: Input)
    ensures Accepted([input], Blocked(EmptyQueue())) == [input]
  {
    assert [input][1..] == [];
    assert Accepted([], Blocked(EmptyQueue()) + {input.submissionHash}) == [];
  }

  lemma PushOne(q: Queue, input: Input, id: string)
    ensures PushAll(q, [input], id) == PushFresh(q, input, id)
  {
    assert [input][1..] == [];
    assert PushAll(PushFresh(q, input, id), [], id) == PushFresh(q, input, id);
  }

  lemma PlayTwo(q: Queue, e0: Event, e1: Event, coerce: Coercion)
    requires Legal(q, e0) && Legal(Step(q, e0, coerce), e1)
    ensures LegalRun(q, [e0, e1], coerce)
    ensures Play(q, [e0, e1], coerce) == Step(Step(q, e0, coerce), e1, coerce)
  {
    assert [e0, e1][1..] == [e1] && [e1][1..] == [];
    var q1 := Step(q, e0, coerce);
    var q2 := Step(q1, e1, coerce);
    assert LegalRun(q2, [], coerce) && Play(q2, [], coerce) == q2;
    assert LegalRun(q1, [e1], coerce) && Play(q1, [e1], coerce) == q2;
  }

  lemma WaitingRetry(input: Input, other: string, id: string, id2: string)
    requires Trim(other) == other != "" && other != input.submissionHash
    ensures Retry(OneWaiting(input, id, 1.0), other, id2, 2.0, true).jobs == OneWaiting(input, id, 1.0).jobs
    ensures !Retry(OneWaiting(input, id, 1.0), other, id2, 2.0, true).isProcessing
  {
    var q1 := OneWaiting(input, id, 1.0);
    assert !HasJob(q1.jobs, other) && !q1.cached.Has(other);
  }

  /** So a retry alone does not wake the queue: enqueue one job while disconnected, then retry some
      other hash once connected, and the job still waits with nothing in flight. */
  lemma RetryCanLeaveQueueAsleep(raw: seq<Json>, input: Input, coerce: Coercion, other: string, id: string, id2: string)
    requires ParseAll(raw, coerce) == [input]
    requires Trim(other) == other != "" && other != input.submissionHash
    requires Clean(id) && Clean(id2) && id != id2
    ensures var es := [CallEnqueue(raw, id, 1.0, false), CallRetry(other, id2, 2.0, true)];
            LegalRun(EmptyQueue(), es, coerce) && Stalled(Play(EmptyQueue(), es, coerce))
  {
    var e0 := CallEnqueue(raw, id, 1.0, false);
    var e1 := CallRetry(other, id2, 2.0, true);
    FirstEnqueue(raw, input, id, 1.0, coerce);
    assert Step(EmptyQueue(), e0, coerce) == OneWaiting(input, id, 1.0);
    PlayTwo(EmptyQueue(), e0, e1, coerce);
    WaitingRetry(input, other, id, id2);
    assert OneWaiting(input, id, 1.0).jobs[0].status == Queued;
  }
}
