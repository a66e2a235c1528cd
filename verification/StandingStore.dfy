/** The projection's loops over the event tables, as the hub runs them: grouping the whole log, the query
    and filter behind one memory's recompute, the upsert, and the batch bookkeeping
    (wevibe-hub/internal/chain/standing_projection.go, watcher_serve.go). */
module StandingStore {
  import opened StableSort
  import opened StandingLog
  import opened StandingProjection
  import Engine = StandingEngine
  import opened Wrappers

  datatype OrgEpoch = OrgEpoch(org: Id, epoch: int)

  /** `sort.Slice` orders its argument and may break ties any way it likes. */
  ghost predicate Arranges(sortSlice: seq<Engine.Event> -> seq<Engine.Event>) {
    forall s :: Sorted(Engine.Order(), sortSlice(s)) && multiset(sortSlice(s)) == multiset(s)
  }

  /** Each chain-gated event's org and epoch is asked for once; without an answer there is no result. */
  method FilterOutcomeReplayEventsFromChain(chain: Chain, events: seq<Event>) returns (kept: Option<seq<Event>>)
    ensures kept.None? <==> exists e :: e in events && e.gated && chain(e.key.org, e.epoch).None?
    ensures kept.Some? ==> kept.value == Filter(KeptBy(chain), events)
  {
    var wanted: set<OrgEpoch> := {};
    var i := 0;
    while i < |events|
      invariant i <= |events|
      invariant forall p :: p in wanted <==>
                  exists j :: 0 <= j < i && events[j].gated && p == OrgEpoch(events[j].key.org, events[j].epoch)
    {
      if events[i].gated {
        wanted := wanted + {OrgEpoch(events[i].key.org, events[i].epoch)};
      }
      i := i + 1;
    }
    ghost var asked := wanted;
    var accepted: map<OrgEpoch, set<Id>> := map[];
    while wanted != {}
      invariant wanted <= asked && accepted.Keys == asked - wanted
      invariant forall p :: p in accepted ==> chain(p.org, p.epoch) == Some(accepted[p])
      decreases |wanted|
    {
      var p :| p in wanted;
      var answer := chain(p.org, p.epoch);
      if answer.None? {
        assert p in asked;
        return None;
      }
      accepted := accepted[p := answer.value];
      wanted := wanted - {p};
    }
    forall j | 0 <= j < |events| && events[j].gated
      ensures OrgEpoch(events[j].key.org, events[j].epoch) in accepted
    {
      assert OrgEpoch(events[j].key.org, events[j].epoch) in asked;
    }
    var filtered := FilterOutcomeReplayEvents(events, accepted, chain);
    return Some(filtered);
  }

  method FilterOutcomeReplayEvents(events: seq<Event>, accepted: map<OrgEpoch, set<Id>>, ghost chain: Chain)
    returns (filtered: seq<Event>)
    requires forall p :: p in accepted ==> chain(p.org, p.epoch) == Some(accepted[p])
    requires forall j :: 0 <= j < |events| && events[j].gated ==> OrgEpoch(events[j].key.org, events[j].epoch) in accepted
    ensures filtered == Filter(KeptBy(chain), events)
  {
    filtered := [];
    var i := 0;
    while i < |events|
      invariant i <= |events| && filtered == Filter(KeptBy(chain), events[..i])
    {
      var e := events[i];
      assert events[..i + 1] == events[..i] + [e];
      FilterAppend(KeptBy(chain), events[..i], [e]);
      if !e.gated || e.fingerprint in accepted[OrgEpoch(e.key.org, e.epoch)] {
        filtered := filtered + [e];
      }
      i := i + 1;
    }
    assert events[..i] == events;
  }

  method GroupStandingEvents(events: seq<Event>) returns (grouped: map<Key, seq<Event>>)
    ensures grouped.Keys == KeysOf(events)
    ensures forall k :: k in grouped ==> grouped[k] == Filter(HasKey(k), events)
  {
    grouped := map[];
    var i := 0;
    while i < |events|
      invariant i <= |events| && grouped.Keys == KeysOf(events[..i])
      invariant forall k :: k in grouped ==> grouped[k] == Filter(HasKey(k), events[..i])
    {
      var e := events[i];
      assert events[..i + 1] == events[..i] + [e];
      forall k ensures Filter(HasKey(k), events[..i + 1])
                    == if k == e.key then Filter(HasKey(k), events[..i]) + [e] else Filter(HasKey(k), events[..i])
      {
        FilterAppend(HasKey(k), events[..i], [e]);
      }
      if e.key !in grouped {
        NoneOf(events[..i], e.key);
      }
      grouped := grouped[e.key := (if e.key in grouped then grouped[e.key] else []) + [e]];
      i := i + 1;
    }
    assert events[..i] == events;
  }

  lemma NoneOf(events: seq<Event>, key: Key)
    requires key !in KeysOf(events)
    ensures Filter(HasKey(key), events) == []
  {
    InFilter(HasKey(key), events);
  }

  lemma EarliestSnoc(events: seq<Event>, e: Event)
    requires events != []
    ensures Earliest(events + [e]) == if EpochOf(e) < Earliest(events) then EpochOf(e) else Earliest(events)
    ensures Latest(events + [e]) == if EpochOf(e) > Latest(events) then EpochOf(e) else Latest(events)
  {
    var longer := events + [e];
    assert longer[|events|] == e && forall x :: x in longer <==> x in events || x == e;
    EarliestIsLeast(events);
    EarliestIsLeast(longer);
    LatestIsGreatest(events);
    LatestIsGreatest(longer);
  }

  class Projection {
    var serves: seq<ServeRow>
    var outcomes: seq<OutcomeRow>
    var standing: map<Key, Standing>
    const policy: Policy
    const sortSlice: seq<Engine.Event> -> seq<Engine.Event>

    ghost function View(): Tables
      reads this
    {
      Tables(serves, outcomes, standing)
    }

    /** The schema keeps outcome fingerprints unique. */
    ghost predicate Valid()
      reads `outcomes
    {
      UniqueOutcomes(outcomes) && Arranges(sortSlice)
    }

    constructor (t: Tables, policy: Policy, sortSlice: seq<Engine.Event> -> seq<Engine.Event>)
      requires UniqueOutcomes(t.outcomes) && Arranges(sortSlice)
      ensures Valid() && View() == t && this.policy == policy
    {
      serves, outcomes, standing := t.serves, t.outcomes, t.standing;
      this.policy := policy;
      this.sortSlice := sortSlice;
    }

    method LoadStandingReplayEvents(chain: Chain, org: Id, memory: Id) returns (events: Option<seq<Event>>)
      ensures events == Load(serves, outcomes, chain, org, memory)
    {
      var rows := Query(serves, outcomes, org, memory);
      var scanned: seq<Event> := [];
      var i := 0;
      while i < |rows|
        invariant i <= |rows| && scanned == rows[..i]
        invariant forall j :: 0 <= j < i ==> rows[j].epoch >= 0
      {
        if rows[i].epoch < 0 {
          assert !Readable(chain, rows[i]);
          return None;
        }
        scanned := scanned + [rows[i]];
        i := i + 1;
      }
      assert scanned == rows;
      events := FilterOutcomeReplayEventsFromChain(chain, scanned);
      if events.None? {
        var e :| e in scanned && e.gated && chain(e.key.org, e.epoch).None?;
        assert !Readable(chain, e);
      }
    }

    /** `replay` is the memory's loaded events. */
    method RecomputeFromGrouped(key: Key, replay: seq<Event>)
      requires Valid() && Distinct(replay)
      modifies `standing
      ensures standing == old(standing)[key := Compute(policy, replay)]
    {
      var ordered: seq<Engine.Event> := [];
      var i := 0;
      while i < |replay|
        invariant i <= |replay| && ordered == Converted(replay[..i]) && standing == old(standing)
      {
        assert replay[..i + 1] == replay[..i] + [replay[i]];
        ConvertedSplit(replay[..i], [replay[i]]);
        ordered := ordered + [ToEngine(replay[i])];
        i := i + 1;
      }
      assert replay[..i] == replay;
      var created, current := 0, 0;
      if |replay| > 0 {
        created, current := EpochOf(replay[0]), EpochOf(replay[0]);
        i := 1;
        while i < |replay|
          invariant 1 <= i <= |replay| && standing == old(standing)
          invariant created == Earliest(replay[..i]) && current == Latest(replay[..i])
        {
          assert replay[..i + 1] == replay[..i] + [replay[i]];
          EarliestSnoc(replay[..i], replay[i]);
          if EpochOf(replay[i]) < created {
            created := EpochOf(replay[i]);
          }
          if EpochOf(replay[i]) > current {
            current := EpochOf(replay[i]);
          }
          i := i + 1;
        }
        assert replay[..i] == replay;
      }
      var sorted := sortSlice(ordered);
      var tallies, voids, unobserved :=
        Engine.ResolvePendingServes(sorted, Engine.Config(created, current, policy.window, policy.quanta));
      OrderIrrelevant(policy, replay, replay, sorted);
      standing := standing[key := policy.finish(tallies, created, current)];
    }

    /** Recompute one memory; a memory that cannot be loaded is left as it was. */
    method RecomputeMemoryStanding(chain: Chain, org: Id, memory: Id) returns (ok: bool)
      requires Valid()
      modifies `standing
      ensures ok <==> LoadKey(old(View()), chain, Key(org, memory)).Some?
      ensures standing == Refreshed(old(View()), chain, policy, {Key(org, memory)})
    {
      var events := LoadStandingReplayEvents(chain, org, memory);
      if events.None? {
        return false;
      }
      LoadedDistinct(View(), chain, org, memory);
      RecomputeFromGrouped(Key(org, memory), events.value);
      return true;
    }

    /** Rebuild the whole table, or fail and leave it alone. */
    method SyncStandingFromEvents(chain: Chain) returns (ok: bool)
      requires Valid()
      modifies `standing
      ensures ok <==> LoadAll(old(View()), chain).Some?
      ensures standing == if ok then Rebuilt(old(View()), chain, policy) else old(standing)
    {
      hide Compute, Query, Filter, Distinct;
      var loaded := LoadStandingReplayEvents(chain, 0, 0);
      if loaded.None? {
        return false;
      }
      LoadedDistinct(View(), chain, 0, 0);
      var grouped := GroupAll(loaded.value);
      ghost var results := Rebuilt(View(), chain, policy);
      RecomputeGroups(grouped, results);
      return true;
    }

    /** The groups, with an empty one for every row whose events are gone. */
    method GroupAll(events: seq<Event>) returns (grouped: map<Key, seq<Event>>)
      requires Distinct(events)
      ensures grouped.Keys == KeysOf(events) + standing.Keys
      ensures forall k :: k in grouped ==> grouped[k] == Filter(HasKey(k), events) && Distinct(grouped[k])
    {
      grouped := GroupStandingEvents(events);
      var missing := standing.Keys - grouped.Keys;
      forall k | k in missing ensures Filter(HasKey(k), events) == [] {
        NoneOf(events, k);
      }
      grouped := map k | k in grouped.Keys + missing :: if k in grouped then grouped[k] else [];
      forall k | k in grouped ensures Distinct(grouped[k]) {
        InFilter(HasKey(k), events);
      }
    }

    method RecomputeGroups(grouped: map<Key, seq<Event>>, ghost results: map<Key, Standing>)
      requires Valid() && results.Keys == grouped.Keys
      requires forall k :: k in grouped ==> Distinct(grouped[k]) && results[k] == Compute(policy, grouped[k])
      modifies `standing
      ensures standing == old(standing) + results
    {
      hide Compute;
      var todo := grouped.Keys;
      while todo != {}
        invariant todo <= grouped.Keys && Valid()
        invariant standing == old(standing) + (results - todo)
        decreases |todo|
      {
        var key :| key in todo;
        RecomputeFromGrouped(key, grouped[key]);
        todo := todo - {key};
      }
      assert results - todo == results;
    }

    method RecomputeSeen(chain: Chain, org: Id, seen: set<Id>)
      requires Valid()
      modifies `standing
      ensures standing == RefreshedMemories(old(View()), chain, policy, org, seen)
    {
      var todo := seen;
      ghost var start := View();
      RefreshNone(start, chain, policy, org);
      while todo != {}
        invariant todo <= seen && Valid() && serves == start.serves && outcomes == start.outcomes
        invariant standing == RefreshedMemories(start, chain, policy, org, seen - todo)
        decreases |todo|
      {
        var memory :| memory in todo;
        ghost var mid := View();
        var ok := RecomputeMemoryStanding(chain, org, memory);
        RefreshMoreMemories(start, mid, chain, policy, org, seen - todo, memory);
        assert seen - todo + {memory} == seen - (todo - {memory});
        todo := todo - {memory};
      }
      assert seen - todo == seen;
    }

    /** A serve batch, or with `denial` a denial batch. */
    method ProcessServeBatch(chain: Chain, org: Id, memories: seq<Id>, denial: bool)
      requires Valid()
      modifies `serves, `standing
      ensures Valid() && View() == AfterServes(old(View()), chain, policy, org, memories, denial)
    {
      if |memories| == 0 {
        assert BatchKeys(org, memories) == {};
        return;
      }
      var i := 0;
      assert memories[0..] == memories;
      while i < |memories|
        invariant i <= |memories| && standing == old(standing)
        invariant MarkAllServes(serves, org, memories[i..], denial) == MarkAllServes(old(serves), org, memories, denial)
      {
        assert memories[i..][0] == memories[i] && memories[i..][1..] == memories[i + 1..];
        serves := MarkServes(serves, org, memories[i], denial);
        i := i + 1;
      }
      var seen := {};
      i := 0;
      while i < |memories|
        invariant i <= |memories| && seen == set m | m in memories[..i]
      {
        assert memories[..i + 1] == memories[..i] + [memories[i]];
        seen := seen + {memories[i]};
        i := i + 1;
      }
      assert memories[..i] == memories;
      assert (set m | m in seen :: Key(org, m)) == BatchKeys(org, memories);
      RecomputeSeen(chain, org, seen);
    }

    /** An event batch. Without the chain's answer nothing happens; a malformed entry stops it after the
        rows before it were marked and before anything is recomputed. */
    method ProcessEventBatch(chain: Chain, org: Id, epoch: int, entries: seq<Entry>) returns (ok: bool)
      requires Valid()
      modifies `outcomes, `standing
      ensures Valid()
      ensures ok <==> entries == [] || (chain(org, epoch).Some? && WellFormed(entries))
      ensures entries == [] || chain(org, epoch).None? ==> View() == old(View())
      ensures entries != [] && chain(org, epoch).Some? ==>
                View() == AfterEvents(old(View()), chain, policy, org, chain(org, epoch).value, entries)
    {
      if |entries| == 0 {
        return true;
      }
      var answer := chain(org, epoch);
      if answer.None? {
        return false;
      }
      var accepted := answer.value;
      var seen: set<Id> := {};
      var i := 0;
      assert entries[0..] == entries;
      while i < |entries|
        invariant i <= |entries| && standing == old(standing) && UniqueOutcomes(outcomes)
        invariant forall j :: 0 <= j < i ==> entries[j] != Malformed
        invariant MarkOutcomes(outcomes, org, accepted, entries[i..]) == MarkOutcomes(old(outcomes), org, accepted, entries)
        invariant (set m | m in seen :: Key(org, m)) == Touched(org, accepted, entries[..i])
      {
        assert entries[i..][0] == entries[i] && entries[i..][1..] == entries[i + 1..];
        var entry := entries[i];
        if entry == Malformed {
          return false;
        }
        TouchedSnoc(org, accepted, entries, i);
        if Accepts(accepted, entry) {
          MarkKeepsUnique(outcomes, org, entry.fingerprint);
          outcomes := MarkOutcome(outcomes, org, entry.fingerprint);
          assert (set m | m in seen + {entry.memory} :: Key(org, m))
              == (set m | m in seen :: Key(org, m)) + {Key(org, entry.memory)};
          seen := seen + {entry.memory};
        }
        i := i + 1;
      }
      assert entries[..i] == entries;
      RecomputeSeen(chain, org, seen);
      return true;
    }
  }

  ghost function RefreshedMemories(t: Tables, chain: Chain, policy: Policy, org: Id, memories: set<Id>)
    : map<Key, Standing>
  {
    Refreshed(t, chain, policy, set m | m in memories :: Key(org, m))
  }

  lemma RefreshNone(t: Tables, chain: Chain, policy: Policy, org: Id)
    ensures RefreshedMemories(t, chain, policy, org, {}) == t.standing
  {
    forall k ensures SameAt(RefreshedMemories(t, chain, policy, org, {}), t.standing, k) {
      RefreshedAt(t, chain, policy, {}, k);
    }
    SameMaps(RefreshedMemories(t, chain, policy, org, {}), t.standing);
  }

  lemma RefreshMoreMemories(start: Tables, mid: Tables, chain: Chain, policy: Policy, org: Id, done: set<Id>, memory: Id)
    requires mid.serves == start.serves && mid.outcomes == start.outcomes
    requires mid.standing == RefreshedMemories(start, chain, policy, org, done)
    ensures Refreshed(mid, chain, policy, {Key(org, memory)})
         == RefreshedMemories(start, chain, policy, org, done + {memory})
  {
    var keys := set m | m in done :: Key(org, m);
    RefreshMore(start, mid, chain, policy, keys, Key(org, memory));
    assert (set m | m in done + {memory} :: Key(org, m)) == keys + {Key(org, memory)};
  }

  lemma RefreshMore(start: Tables, mid: Tables, chain: Chain, policy: Policy, done: set<Key>, key: Key)
    requires mid.serves == start.serves && mid.outcomes == start.outcomes
    requires mid.standing == Refreshed(start, chain, policy, done)
    ensures Refreshed(mid, chain, policy, {key}) == Refreshed(start, chain, policy, done + {key})
  {
    var a, b := Refreshed(mid, chain, policy, {key}), Refreshed(start, chain, policy, done + {key});
    forall k ensures SameAt(a, b, k) {
      assert LoadKey(mid, chain, k) == LoadKey(start, chain, k);
      RefreshedAt(mid, chain, policy, {key}, k);
      RefreshedAt(start, chain, policy, done + {key}, k);
      RefreshedAt(start, chain, policy, done, k);
    }
    SameMaps(a, b);
  }

  lemma RefreshedAt(t: Tables, chain: Chain, policy: Policy, keys: set<Key>, k: Key)
    ensures k in Refreshed(t, chain, policy, keys) <==> k in t.standing || (k in keys && LoadKey(t, chain, k).Some?)
    ensures k in keys && LoadKey(t, chain, k).Some? ==>
              Refreshed(t, chain, policy, keys)[k] == Compute(policy, LoadKey(t, chain, k).value)
    ensures k in t.standing && !(k in keys && LoadKey(t, chain, k).Some?) ==>
              Refreshed(t, chain, policy, keys)[k] == t.standing[k]
  {
  }

  lemma TouchedSnoc(org: Id, accepted: set<Id>, entries: seq<Entry>, i: nat)
    requires i < |entries|
    ensures Touched(org, accepted, entries[..i + 1])
         == Touched(org, accepted, entries[..i]) + (if Accepts(accepted, entries[i]) then {Key(org, entries[i].memory)} else {})
  {
    assert forall j :: 0 <= j < i ==> entries[..i + 1][j] == entries[..i][j];
  }

  lemma {:induction false} MarkedFrom(rows: seq<OutcomeRow>, org: Id, fingerprint: Id, r: OutcomeRow)
    requires r in MarkOutcome(rows, org, fingerprint)
    ensures exists s :: s in rows && r == if s.org == org && s.fingerprint == fingerprint then s.(status := Submitted) else s
  {
    if r in MarkOutcome(rows[1..], org, fingerprint) {
      MarkedFrom(rows[1..], org, fingerprint, r);
    } else {
      assert rows[0] in rows;
    }
  }

  lemma MarkKeepsUnique(rows: seq<OutcomeRow>, org: Id, fingerprint: Id)
    requires UniqueOutcomes(rows)
    ensures UniqueOutcomes(MarkOutcome(rows, org, fingerprint))
  {
    var after := MarkOutcome(rows, org, fingerprint);
    forall r, s | r in after && s in after && r.fingerprint == s.fingerprint ensures r == s {
      MarkedFrom(rows, org, fingerprint, r);
      MarkedFrom(rows, org, fingerprint, s);
    }
  }
}
