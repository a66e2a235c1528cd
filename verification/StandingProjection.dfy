/** The memory_standing table as a projection of the recall-event log
    (wevibe-hub/internal/chain/standing_projection.go, watcher_serve.go). */
module StandingProjection {
  // It is rebuilt whole, recomputed one memory at a time, and kept in step by the batch bookkeeping.

  import opened StableSort
  import opened StandingLog
  import Engine = StandingEngine
  import opened Wrappers

  datatype Standing = Standing(bps: int, serveCount: nat, denialCount: nat, trusted: bool, archived: bool)

  /** `finish` is the floating-point fold over the tallies, from the created to the current epoch. */
  datatype Policy = Policy(window: nat, quanta: nat, finish: (map<nat, Engine.Tally>, nat, nat) -> Standing)

  // ----- one memory's standing -----

  /** Loaded events have no negative epochs. */
  function EpochOf(e: Event): nat {
    if e.epoch < 0 then 0 else e.epoch
  }

  function ToEngine(e: Event): Engine.Event {
    Engine.Event(EpochOf(e), e.kind, e.ref, e.fingerprint)
  }

  function Converted(events: seq<Event>): (r: seq<Engine.Event>) {
    if events == [] then [] else [ToEngine(events[0])] + Converted(events[1..])
  }

  function Earliest(events: seq<Event>): nat {
    if events == [] then 0
    else if |events| == 1 || EpochOf(events[0]) <= Earliest(events[1..]) then EpochOf(events[0])
    else Earliest(events[1..])
  }

  function Latest(events: seq<Event>): nat {
    if events == [] then 0
    else if |events| == 1 || EpochOf(events[0]) >= Latest(events[1..]) then EpochOf(events[0])
    else Latest(events[1..])
  }

  function Range(policy: Policy, events: seq<Event>): Engine.Config {
    Engine.Config(Earliest(events), Latest(events), policy.window, policy.quanta)
  }

  function Compute(policy: Policy, events: seq<Event>): Standing {
    var ordered := Sort(Engine.Order(), Converted(events));
    var resolved := Engine.Fold(Engine.START, ordered, Range(policy, events));
    policy.finish(resolved.tallies, Earliest(events), Latest(events))
  }

  // ----- the order of the events does not matter -----

  /** What the tables' constraints make of any set of loaded events. */
  ghost predicate Distinct(events: seq<Event>) {
    && (forall e :: e in events ==> if e.gated then Engine.Rank(e.kind) == 1
                                    else Engine.Rank(e.kind) == 0 && e.ref == e.fingerprint)
    && (forall e, f :: e in events && f in events && e.gated && f.gated && e.fingerprint == f.fingerprint ==> e == f)
  }

  lemma {:induction false} InConverted(events: seq<Event>, x: Engine.Event)
    ensures x in Converted(events) <==> exists e :: e in events && x == ToEngine(e)
  {
    if events != [] {
      InConverted(events[1..], x);
      assert events == [events[0]] + events[1..];
    }
  }

  lemma DistinctNoClash(events: seq<Event>)
    requires Distinct(events)
    ensures Engine.NoClash(Converted(events))
  {
    forall x, y | x in Converted(events) && y in Converted(events) && Engine.Tied(x, y)
      ensures x == y || (Engine.Rank(x.kind) == 0 && x.kind != y.kind)
    {
      InConverted(events, x);
      InConverted(events, y);
      var e :| e in events && x == ToEngine(e);
      var f :| f in events && y == ToEngine(f);
    }
  }

  lemma {:induction false} ConvertedSplit(a: seq<Event>, b: seq<Event>)
    ensures Converted(a + b) == Converted(a) + Converted(b)
  {
    if a == [] {
      assert a + b == b;
    } else {
      assert (a + b)[1..] == a[1..] + b;
      ConvertedSplit(a[1..], b);
    }
  }

  lemma RemoveOne(b: seq<Event>, i: nat)
    requires i < |b|
    ensures multiset(b[..i] + b[i + 1..]) == multiset(b) - multiset{b[i]}
    ensures b == b[..i] + ([b[i]] + b[i + 1..])
  {
    assert b == b[..i] + ([b[i]] + b[i + 1..]);
    assert multiset(b) == multiset(b[..i]) + (multiset{b[i]} + multiset(b[i + 1..]));
  }

  lemma {:induction false} ConvertedMultiset(a: seq<Event>, b: seq<Event>)
    requires multiset(a) == multiset(b)
    ensures multiset(Converted(a)) == multiset(Converted(b))
    decreases |a|
  {
    if a == [] {
      assert |multiset(b)| == 0;
      assert b == [];
    } else {
      assert a[0] in multiset(b);
      var i :| 0 <= i < |b| && b[i] == a[0];
      var rest := b[..i] + b[i + 1..];
      RemoveOne(b, i);
      TailMultiset(a);
      ConvertedMultiset(a[1..], rest);
      ConvertedSplit(b[..i], [b[i]] + b[i + 1..]);
      ConvertedSplit([b[i]], b[i + 1..]);
      ConvertedSplit(b[..i], b[i + 1..]);
      assert Converted([b[i]]) == [ToEngine(a[0])];
    }
  }

  lemma {:induction false} EarliestIsLeast(events: seq<Event>)
    requires events != []
    ensures exists e :: e in events && EpochOf(e) == Earliest(events)
    ensures forall e :: e in events ==> Earliest(events) <= EpochOf(e)
  {
    if |events| > 1 {
      EarliestIsLeast(events[1..]);
    }
    assert events[0] in events;
    assert forall e :: e in events ==> e == events[0] || e in events[1..];
  }

  lemma {:induction false} LatestIsGreatest(events: seq<Event>)
    requires events != []
    ensures exists e :: e in events && EpochOf(e) == Latest(events)
    ensures forall e :: e in events ==> EpochOf(e) <= Latest(events)
  {
    if |events| > 1 {
      LatestIsGreatest(events[1..]);
    }
    assert events[0] in events;
    assert forall e :: e in events ==> e == events[0] || e in events[1..];
  }

  lemma SameRange(policy: Policy, a: seq<Event>, b: seq<Event>)
    requires multiset(a) == multiset(b)
    ensures Range(policy, a) == Range(policy, b)
  {
    forall e ensures e in a <==> e in b {
      assert e in a <==> e in multiset(a);
      assert e in b <==> e in multiset(b);
    }
    if a != [] {
      assert a[0] in b;
      EarliestIsLeast(a);
      EarliestIsLeast(b);
      LatestIsGreatest(a);
      LatestIsGreatest(b);
    }
  }

  /** Whatever order the database returns tied events in, and however the engine's sort breaks ties, the
      tallies and so the standing are the same. */
  lemma OrderIrrelevant(policy: Policy, a: seq<Event>, b: seq<Event>, ordered: seq<Engine.Event>)
    requires multiset(a) == multiset(b) && Distinct(a)
    requires Sorted(Engine.Order(), ordered) && multiset(ordered) == multiset(Converted(b))
    ensures var resolved := Engine.Fold(Engine.START, ordered, Range(policy, b));
            policy.finish(resolved.tallies, Earliest(b), Latest(b)) == Compute(policy, a)
    ensures Compute(policy, a) == Compute(policy, b)
  {
    SameRange(policy, a, b);
    ConvertedMultiset(a, b);
    DistinctNoClash(a);
    var first := Sort(Engine.Order(), Converted(a));
    var second := Sort(Engine.Order(), Converted(b));
    SortMultiset(Engine.Order(), Converted(a));
    SortMultiset(Engine.Order(), Converted(b));
    assert TotalPreorder(Engine.Order());
    SortSorted(Engine.Order(), Converted(a));
    SortSorted(Engine.Order(), Converted(b));
    InSort(Engine.Order(), Converted(a));
    Engine.ArrangementIrrelevant(first, ordered, Range(policy, a));
    Engine.ArrangementIrrelevant(first, second, Range(policy, a));
  }

  // ----- the tables -----

  datatype Tables = Tables(serves: seq<ServeRow>, outcomes: seq<OutcomeRow>, standing: map<Key, Standing>)

  /** `UNIQUE (fingerprint)` on the outcome rows. */
  ghost predicate UniqueOutcomes(rows: seq<OutcomeRow>) {
    forall r, s :: r in rows && s in rows && r.fingerprint == s.fingerprint ==> r == s
  }

  predicate Proper(key: Key) {
    key.org != 0 && key.memory != 0
  }

  ghost function LoadKey(t: Tables, chain: Chain, key: Key): Option<seq<Event>> {
    Load(t.serves, t.outcomes, chain, key.org, key.memory)
  }

  ghost function LoadAll(t: Tables, chain: Chain): Option<seq<Event>> {
    Load(t.serves, t.outcomes, chain, 0, 0)
  }

  lemma LoadedDistinct(t: Tables, chain: Chain, org: Id, memory: Id)
    requires UniqueOutcomes(t.outcomes) && Load(t.serves, t.outcomes, chain, org, memory).Some?
    ensures Distinct(Load(t.serves, t.outcomes, chain, org, memory).value)
  {
    var events := Load(t.serves, t.outcomes, chain, org, memory).value;
    InFilter(KeptBy(chain), Query(t.serves, t.outcomes, org, memory));
    forall e | e in events
      ensures (exists r :: r in t.serves && e == OfServe(r)) || (exists r :: r in t.outcomes && e == OfOutcome(r))
    {
      QueryFrom(t.serves, t.outcomes, org, memory, e);
      ServeEventsFrom(t.serves, e);
      OutcomeEventsFrom(t.outcomes, e);
    }
  }

  /** The table after the memories `keys` were recomputed; a memory that cannot be loaded keeps its row. */
  ghost function Refreshed(t: Tables, chain: Chain, policy: Policy, keys: set<Key>): map<Key, Standing> {
    map k | k in t.standing.Keys + (set k | k in keys && LoadKey(t, chain, k).Some?) ::
      if k in keys && LoadKey(t, chain, k).Some? then Compute(policy, LoadKey(t, chain, k).value) else t.standing[k]
  }

  function KeysOf(events: seq<Event>): set<Key> {
    set e | e in events :: e.key
  }

  ghost function Rebuilt(t: Tables, chain: Chain, policy: Policy): map<Key, Standing>
    requires LoadAll(t, chain).Some?
  {
    var events := LoadAll(t, chain).value;
    map k | k in KeysOf(events) + t.standing.Keys :: Compute(policy, Filter(HasKey(k), events))
  }

  /** The rows of the projection are named, as the rows of the log are. */
  ghost predicate AllNamed(t: Tables) {
    Named(t.serves, t.outcomes) && forall k :: k in t.standing ==> Proper(k)
  }

  /** A rebuild is a recompute of every memory with events or with a row. */
  lemma RebuildIsRecompute(t: Tables, chain: Chain, policy: Policy)
    requires AllNamed(t) && LoadAll(t, chain).Some?
    ensures Rebuilt(t, chain, policy)
         == Refreshed(t, chain, policy, KeysOf(LoadAll(t, chain).value) + t.standing.Keys)
  {
    var events := LoadAll(t, chain).value;
    forall k | k in KeysOf(events) + t.standing.Keys
      ensures LoadKey(t, chain, k) == Some(Filter(HasKey(k), events))
    {
      if e :| e in events && e.key == k {
        InFilter(KeptBy(chain), Query(t.serves, t.outcomes, 0, 0));
        QueryFrom(t.serves, t.outcomes, 0, 0, e);
        ServeEventsFrom(t.serves, e);
        OutcomeEventsFrom(t.outcomes, e);
      }
      LoadOne(t.serves, t.outcomes, chain, k);
    }
  }

  lemma RebuildIdempotent(t: Tables, chain: Chain, policy: Policy)
    requires LoadAll(t, chain).Some?
    ensures var once := t.(standing := Rebuilt(t, chain, policy)); Rebuilt(once, chain, policy) == once.standing
  {
  }

  /** A row whose events are gone goes back to the standing of no events. */
  lemma RebuildResets(t: Tables, chain: Chain, policy: Policy, key: Key)
    requires LoadAll(t, chain).Some? && key in t.standing && key !in KeysOf(LoadAll(t, chain).value)
    ensures key in Rebuilt(t, chain, policy) && Rebuilt(t, chain, policy)[key] == Compute(policy, [])
  {
    var events := LoadAll(t, chain).value;
    InFilter(HasKey(key), events);
    if Filter(HasKey(key), events) != [] {
      assert Filter(HasKey(key), events)[0] in events;
    }
  }

  // ----- agreement -----

  ghost predicate AgreesOn(t: Tables, chain: Chain, policy: Policy, key: Key) {
    && LoadKey(t, chain, key).Some?
    && (key in t.standing ==> t.standing[key] == Compute(policy, LoadKey(t, chain, key).value))
    && (LoadKey(t, chain, key).value != [] ==> key in t.standing)
  }

  ghost predicate Agrees(t: Tables, chain: Chain, policy: Policy) {
    forall key :: Proper(key) ==> AgreesOn(t, chain, policy, key)
  }

  lemma KeyLoads(t: Tables, chain: Chain, key: Key)
    requires LoadAll(t, chain).Some? && Proper(key)
    ensures LoadKey(t, chain, key).Some?
    ensures LoadKey(t, chain, key).value != [] <==> key in KeysOf(LoadAll(t, chain).value)
  {
    var events := LoadAll(t, chain).value;
    LoadOne(t.serves, t.outcomes, chain, key);
    InFilter(HasKey(key), events);
    var mine := Filter(HasKey(key), events);
    if mine != [] {
      assert mine[0] in events;
    }
    if e :| e in events && e.key == key {
      assert e in mine;
    }
  }

  ghost predicate SameAt(a: map<Key, Standing>, b: map<Key, Standing>, key: Key) {
    (key in a <==> key in b) && (key in a && key in b ==> a[key] == b[key])
  }

  lemma AgreesAt(t: Tables, chain: Chain, policy: Policy, key: Key)
    requires AllNamed(t) && LoadAll(t, chain).Some? && Proper(key)
    ensures AgreesOn(t, chain, policy, key) <==> SameAt(Rebuilt(t, chain, policy), t.standing, key)
  {
    KeyLoads(t, chain, key);
    LoadOne(t.serves, t.outcomes, chain, key);
  }

  /** The table agrees with the log exactly when a rebuild would change nothing. */
  lemma AgreesExactly(t: Tables, chain: Chain, policy: Policy)
    requires AllNamed(t) && LoadAll(t, chain).Some?
    ensures Agrees(t, chain, policy) <==> Rebuilt(t, chain, policy) == t.standing
  {
    var rebuilt := Rebuilt(t, chain, policy);
    forall key ensures Proper(key) ==> (AgreesOn(t, chain, policy, key) <==> SameAt(rebuilt, t.standing, key))
      ensures !Proper(key) ==> key !in t.standing && key !in rebuilt
    {
      if Proper(key) {
        AgreesAt(t, chain, policy, key);
      } else if key in KeysOf(LoadAll(t, chain).value) {
        EventKeysProper(t, chain, key);
      }
    }
    SameMaps(rebuilt, t.standing);
  }

  lemma SameMaps(a: map<Key, Standing>, b: map<Key, Standing>)
    ensures a == b <==> forall key :: SameAt(a, b, key)
  {
    if forall key :: SameAt(a, b, key) {
      forall key ensures (key in a <==> key in b) && (key in a ==> a[key] == b[key]) {
        assert SameAt(a, b, key);
      }
    }
  }

  lemma EventKeysProper(t: Tables, chain: Chain, key: Key)
    requires Named(t.serves, t.outcomes) && LoadAll(t, chain).Some? && key in KeysOf(LoadAll(t, chain).value)
    ensures Proper(key)
  {
    var e :| e in LoadAll(t, chain).value && e.key == key;
    InFilter(KeptBy(chain), Query(t.serves, t.outcomes, 0, 0));
    QueryFrom(t.serves, t.outcomes, 0, 0, e);
    ServeEventsFrom(t.serves, e);
    OutcomeEventsFrom(t.outcomes, e);
  }

  /** Changing only the logs of `keys` and recomputing those keeps agreement. */
  lemma RefreshKeepsAgreement(before: Tables, after: Tables, chain: Chain, policy: Policy, keys: set<Key>)
    requires Agrees(before, chain, policy)
    requires forall key :: Proper(key) && key !in keys ==> LoadKey(after, chain, key) == LoadKey(before, chain, key)
    requires forall key :: key in keys ==> LoadKey(after, chain, key).Some?
    requires after.standing == Refreshed(after.(standing := before.standing), chain, policy, keys)
    ensures Agrees(after, chain, policy)
  {
    var mid := after.(standing := before.standing);
    forall key | Proper(key) ensures AgreesOn(after, chain, policy, key) {
      assert LoadKey(mid, chain, key) == LoadKey(after, chain, key);
      assert AgreesOn(before, chain, policy, key);
      if key in keys {
        assert key in after.standing;
      }
    }
  }

  // ----- the statements of the batch bookkeeping -----

  function MarkServes(rows: seq<ServeRow>, org: Id, memory: Id, denial: bool): seq<ServeRow> {
    if rows == [] then []
    else
      var r := rows[0];
      var hit := r.org == org && r.memory == memory && r.status == Pending && r.denial == denial;
      [if hit then r.(status := Submitted) else r] + MarkServes(rows[1..], org, memory, denial)
  }

  function MarkAllServes(rows: seq<ServeRow>, org: Id, memories: seq<Id>, denial: bool): seq<ServeRow>
    decreases |memories|
  {
    if memories == [] then rows
    else MarkAllServes(MarkServes(rows, org, memories[0], denial), org, memories[1..], denial)
  }

  function MarkOutcome(rows: seq<OutcomeRow>, org: Id, fingerprint: Id): seq<OutcomeRow> {
    if rows == [] then []
    else
      var r := rows[0];
      [if r.org == org && r.fingerprint == fingerprint then r.(status := Submitted) else r]
      + MarkOutcome(rows[1..], org, fingerprint)
  }

  /** One event of an event batch: a nil entry, one whose body does not encode, or a memory and the
      fingerprint of the body. */
  datatype Entry = Missing | Malformed | Entry(memory: Id, fingerprint: Id)

  predicate Accepts(accepted: set<Id>, e: Entry) {
    e.Entry? && e.fingerprint in accepted
  }

  predicate WellFormed(entries: seq<Entry>) {
    forall i :: 0 <= i < |entries| ==> entries[i] != Malformed
  }

  /** A malformed entry ends the batch. */
  function MarkOutcomes(rows: seq<OutcomeRow>, org: Id, accepted: set<Id>, entries: seq<Entry>): seq<OutcomeRow>
    decreases |entries|
  {
    if entries == [] || entries[0] == Malformed then rows
    else
      MarkOutcomes(if Accepts(accepted, entries[0]) then MarkOutcome(rows, org, entries[0].fingerprint) else rows,
                   org, accepted, entries[1..])
  }

  function Touched(org: Id, accepted: set<Id>, entries: seq<Entry>): set<Key> {
    set i | 0 <= i < |entries| && Accepts(accepted, entries[i]) :: Key(org, entries[i].memory)
  }

  function BatchKeys(org: Id, memories: seq<Id>): set<Key> {
    set m | m in memories :: Key(org, m)
  }

  lemma {:induction false} MarkServesLocal(rows: seq<ServeRow>, org: Id, memory: Id, denial: bool, key: Key)
    requires key != Key(org, memory)
    ensures Filter(HasKey(key), ServeEvents(MarkServes(rows, org, memory, denial)))
         == Filter(HasKey(key), ServeEvents(rows))
  {
    if rows != [] {
      var after := MarkServes(rows, org, memory, denial);
      assert after[1..] == MarkServes(rows[1..], org, memory, denial);
      MarkServesLocal(rows[1..], org, memory, denial, key);
      FilterCons(HasKey(key), OfServe(rows[0]), ServeEvents(rows[1..]));
      FilterCons(HasKey(key), OfServe(after[0]), ServeEvents(after[1..]));
    }
  }

  lemma {:induction false} MarkAllServesLocal(rows: seq<ServeRow>, org: Id, memories: seq<Id>, denial: bool, key: Key)
    requires key !in BatchKeys(org, memories)
    ensures Filter(HasKey(key), ServeEvents(MarkAllServes(rows, org, memories, denial)))
         == Filter(HasKey(key), ServeEvents(rows))
    decreases |memories|
  {
    if memories != [] {
      assert Key(org, memories[0]) in BatchKeys(org, memories);
      assert BatchKeys(org, memories[1..]) <= BatchKeys(org, memories);
      MarkServesLocal(rows, org, memories[0], denial, key);
      MarkAllServesLocal(MarkServes(rows, org, memories[0], denial), org, memories[1..], denial, key);
    }
  }

  /** The chain's event body, and so its fingerprint, names the memory it is about: the hub's row for it
      names the same one. */
  ghost predicate NamesItsMemory(rows: seq<OutcomeRow>, org: Id, fingerprint: Id, memory: Id) {
    forall r :: r in rows && r.org == org && r.fingerprint == fingerprint ==> r.memory == memory
  }

  lemma {:induction false} MarkOutcomeLocal(rows: seq<OutcomeRow>, org: Id, fingerprint: Id, memory: Id, key: Key)
    requires NamesItsMemory(rows, org, fingerprint, memory) && key != Key(org, memory)
    ensures Filter(HasKey(key), OutcomeEvents(MarkOutcome(rows, org, fingerprint)))
         == Filter(HasKey(key), OutcomeEvents(rows))
  {
    if rows != [] {
      var after := MarkOutcome(rows, org, fingerprint);
      assert after[1..] == MarkOutcome(rows[1..], org, fingerprint);
      MarkOutcomeLocal(rows[1..], org, fingerprint, memory, key);
      assert rows[0] in rows;
      FilterCons(HasKey(key), OfOutcome(rows[0]), OutcomeEvents(rows[1..]));
      FilterCons(HasKey(key), OfOutcome(after[0]), OutcomeEvents(after[1..]));
    }
  }

  lemma {:induction false} MarkOutcomeNames(rows: seq<OutcomeRow>, org: Id, fingerprint: Id, other: Id, memory: Id)
    requires NamesItsMemory(rows, org, other, memory)
    ensures NamesItsMemory(MarkOutcome(rows, org, fingerprint), org, other, memory)
  {
    if rows != [] {
      MarkOutcomeNames(rows[1..], org, fingerprint, other, memory);
      assert rows[0] in rows;
    }
  }

  ghost predicate EntriesName(rows: seq<OutcomeRow>, org: Id, entries: seq<Entry>) {
    forall i :: 0 <= i < |entries| && entries[i].Entry? ==>
      NamesItsMemory(rows, org, entries[i].fingerprint, entries[i].memory)
  }

  lemma {:induction false} MarkOutcomesLocal(rows: seq<OutcomeRow>, org: Id, accepted: set<Id>, entries: seq<Entry>,
                                             key: Key)
    requires EntriesName(rows, org, entries) && key !in Touched(org, accepted, entries)
    ensures Filter(HasKey(key), OutcomeEvents(MarkOutcomes(rows, org, accepted, entries)))
         == Filter(HasKey(key), OutcomeEvents(rows))
    decreases |entries|
  {
    if entries == [] || entries[0] == Malformed {
    } else {
      var rest := entries[1..];
      assert forall i :: 0 <= i < |rest| ==> rest[i] == entries[i + 1];
      assert Touched(org, accepted, rest) <= Touched(org, accepted, entries);
      if Accepts(accepted, entries[0]) {
        assert Key(org, entries[0].memory) in Touched(org, accepted, entries);
        MarkOutcomeLocal(rows, org, entries[0].fingerprint, entries[0].memory, key);
        var next := MarkOutcome(rows, org, entries[0].fingerprint);
        forall i | 0 <= i < |rest| && rest[i].Entry? ensures NamesItsMemory(next, org, rest[i].fingerprint, rest[i].memory)
        {
          MarkOutcomeNames(rows, org, entries[0].fingerprint, rest[i].fingerprint, rest[i].memory);
        }
        MarkOutcomesLocal(next, org, accepted, rest, key);
      } else {
        MarkOutcomesLocal(rows, org, accepted, rest, key);
      }
    }
  }

  /** A memory's load depends only on its own events. */
  lemma LoadLocal(a: Tables, b: Tables, chain: Chain, key: Key)
    requires Proper(key)
    requires Filter(HasKey(key), ServeEvents(a.serves)) == Filter(HasKey(key), ServeEvents(b.serves))
    requires Filter(HasKey(key), OutcomeEvents(a.outcomes)) == Filter(HasKey(key), OutcomeEvents(b.outcomes))
    ensures LoadKey(a, chain, key) == LoadKey(b, chain, key)
  {
    QueryLocal(a, key);
    QueryLocal(b, key);
  }

  lemma QueryLocal(t: Tables, key: Key)
    requires Proper(key)
    ensures Query(t.serves, t.outcomes, key.org, key.memory)
         == Sort(QueryOrder(), Filter(HasKey(key), ServeEvents(t.serves)) + Filter(HasKey(key), OutcomeEvents(t.outcomes)))
  {
    var all := ServeEvents(t.serves) + OutcomeEvents(t.outcomes);
    FilterSame(Matching(key.org, key.memory), HasKey(key), all);
    FilterAppend(HasKey(key), ServeEvents(t.serves), OutcomeEvents(t.outcomes));
  }

  // ----- every batch keeps agreement -----

  ghost function AfterServes(t: Tables, chain: Chain, policy: Policy, org: Id, memories: seq<Id>, denial: bool): Tables {
    var marked := t.(serves := MarkAllServes(t.serves, org, memories, denial));
    marked.(standing := Refreshed(marked, chain, policy, BatchKeys(org, memories)))
  }

  /** A serve batch or a denial batch whose memories all load. */
  lemma ServesKeepAgreement(t: Tables, chain: Chain, policy: Policy, org: Id, memories: seq<Id>, denial: bool)
    requires Agrees(t, chain, policy)
    requires forall key :: key in BatchKeys(org, memories) ==>
               LoadKey(AfterServes(t, chain, policy, org, memories, denial), chain, key).Some?
    ensures Agrees(AfterServes(t, chain, policy, org, memories, denial), chain, policy)
  {
    var keys := BatchKeys(org, memories);
    var after := AfterServes(t, chain, policy, org, memories, denial);
    forall key | Proper(key) && key !in keys ensures LoadKey(after, chain, key) == LoadKey(t, chain, key) {
      MarkAllServesLocal(t.serves, org, memories, denial, key);
      LoadLocal(after, t, chain, key);
    }
    RefreshKeepsAgreement(t, after, chain, policy, keys);
  }

  ghost function AfterEvents(t: Tables, chain: Chain, policy: Policy, org: Id, accepted: set<Id>, entries: seq<Entry>)
    : Tables
  {
    var marked := t.(outcomes := MarkOutcomes(t.outcomes, org, accepted, entries));
    if WellFormed(entries) then marked.(standing := Refreshed(marked, chain, policy, Touched(org, accepted, entries)))
    else marked
  }

  /** An event batch without malformed entries whose memories all load. */
  lemma EventsKeepAgreement(t: Tables, chain: Chain, policy: Policy, org: Id, accepted: set<Id>, entries: seq<Entry>)
    requires Agrees(t, chain, policy)
    requires WellFormed(entries) && EntriesName(t.outcomes, org, entries)
    requires forall key :: key in Touched(org, accepted, entries) ==>
               LoadKey(AfterEvents(t, chain, policy, org, accepted, entries), chain, key).Some?
    ensures Agrees(AfterEvents(t, chain, policy, org, accepted, entries), chain, policy)
  {
    var keys := Touched(org, accepted, entries);
    var after := AfterEvents(t, chain, policy, org, accepted, entries);
    forall key | Proper(key) && key !in keys ensures LoadKey(after, chain, key) == LoadKey(t, chain, key) {
      MarkOutcomesLocal(t.outcomes, org, accepted, entries, key);
      LoadLocal(after, t, chain, key);
    }
    RefreshKeepsAgreement(t, after, chain, policy, keys);
  }

  // ----- a batch that stops at a malformed entry -----

  /** The fingerprints of the accepted entries before the first malformed one. */
  function Handled(accepted: set<Id>, entries: seq<Entry>): set<Id> {
    if entries == [] || entries[0] == Malformed then {}
    else (if Accepts(accepted, entries[0]) then {entries[0].fingerprint} else {}) + Handled(accepted, entries[1..])
  }

  /** The batch newly submits the row, and a load either fails on it or keeps it. */
  predicate Disturbs(chain: Chain, org: Id, handled: set<Id>, r: OutcomeRow) {
    && r.org == org && r.fingerprint in handled && r.status != Submitted
    && (Readable(chain, OfOutcome(r)) ==> Kept(chain, OfOutcome(r)))
  }

  function Sent(org: Id, handled: set<Id>, r: OutcomeRow): OutcomeRow {
    if r.org == org && r.fingerprint in handled then r.(status := Submitted) else r
  }

  lemma {:induction false} MarkOutcomeEach(rows: seq<OutcomeRow>, org: Id, fingerprint: Id)
    ensures var after := MarkOutcome(rows, org, fingerprint);
            |after| == |rows| && forall i :: 0 <= i < |rows| ==> after[i] == Sent(org, {fingerprint}, rows[i])
  {
    if rows != [] {
      MarkOutcomeEach(rows[1..], org, fingerprint);
    }
  }

  lemma {:induction false} MarkOutcomesEach(rows: seq<OutcomeRow>, org: Id, accepted: set<Id>, entries: seq<Entry>)
    ensures var after := MarkOutcomes(rows, org, accepted, entries);
            && |after| == |rows|
            && forall i :: 0 <= i < |rows| ==> after[i] == Sent(org, Handled(accepted, entries), rows[i])
    decreases |entries|
  {
    if entries != [] && entries[0] != Malformed {
      if Accepts(accepted, entries[0]) {
        MarkOutcomeEach(rows, org, entries[0].fingerprint);
        MarkOutcomesEach(MarkOutcome(rows, org, entries[0].fingerprint), org, accepted, entries[1..]);
      } else {
        MarkOutcomesEach(rows, org, accepted, entries[1..]);
      }
    }
  }

  /** One memory's outcome events the chain keeps. */
  function KeptOutcomes(chain: Chain, rows: seq<OutcomeRow>, key: Key): seq<Event> {
    Filter(KeptBy(chain), Filter(HasKey(key), OutcomeEvents(rows)))
  }

  lemma KeptOutcomesCons(chain: Chain, rows: seq<OutcomeRow>, key: Key)
    requires rows != []
    ensures KeptOutcomes(chain, rows, key)
         == (if rows[0].status == Submitted && HasKey(key)(OfOutcome(rows[0])) && Kept(chain, OfOutcome(rows[0]))
             then [OfOutcome(rows[0])] else []) + KeptOutcomes(chain, rows[1..], key)
  {
    var e, rest := OfOutcome(rows[0]), OutcomeEvents(rows[1..]);
    FilterCons(HasKey(key), e, rest);
    FilterCons(KeptBy(chain), e, Filter(HasKey(key), rest));
  }

  predicate NewlyKept(chain: Chain, org: Id, handled: set<Id>, key: Key, r: OutcomeRow) {
    OfOutcome(r).key == key && Disturbs(chain, org, handled, r) && Kept(chain, OfOutcome(r))
  }

  /** Submitting rows adds an event exactly where a row the chain keeps was not yet submitted. */
  lemma {:induction false} KeptGrow(chain: Chain, rows: seq<OutcomeRow>, after: seq<OutcomeRow>, org: Id,
                                    handled: set<Id>, key: Key)
    requires |after| == |rows| && forall i :: 0 <= i < |rows| ==> after[i] == Sent(org, handled, rows[i])
    ensures |KeptOutcomes(chain, rows, key)| <= |KeptOutcomes(chain, after, key)|
    ensures if forall r :: r in rows ==> !NewlyKept(chain, org, handled, key, r)
            then KeptOutcomes(chain, after, key) == KeptOutcomes(chain, rows, key)
            else |KeptOutcomes(chain, rows, key)| < |KeptOutcomes(chain, after, key)|
  {
    if rows != [] {
      hide KeptOutcomes, Kept;
      KeptOutcomesCons(chain, rows, key);
      KeptOutcomesCons(chain, after, key);
      KeptGrow(chain, rows[1..], after[1..], org, handled, key);
      assert after[0] == Sent(org, handled, rows[0]) && OfOutcome(after[0]) == OfOutcome(rows[0]);
      assert forall r :: r in rows <==> r == rows[0] || r in rows[1..];
      assert HasKey(key)(OfOutcome(rows[0])) <==> OfOutcome(rows[0]).key == key;
      assert NewlyKept(chain, org, handled, key, rows[0]) <==>
        rows[0].status != Submitted && after[0].status == Submitted && HasKey(key)(OfOutcome(rows[0]))
        && Kept(chain, OfOutcome(rows[0]));
    } else {
      assert after == rows;
    }
  }

  /** A memory's load is the sorted kept events of its key, if all of them can be read. */
  lemma LoadKeyParts(t: Tables, chain: Chain, key: Key)
    requires Proper(key)
    ensures var serves, outcomes :=
              Filter(HasKey(key), ServeEvents(t.serves)), Filter(HasKey(key), OutcomeEvents(t.outcomes));
            && (LoadKey(t, chain, key).Some? <==>
                AllReadable(chain, serves) && RowsReadable(chain, t.outcomes, key))
            && (LoadKey(t, chain, key).Some? ==>
                LoadKey(t, chain, key).value
                == Sort(QueryOrder(), Filter(KeptBy(chain), serves) + KeptOutcomes(chain, t.outcomes, key)))
  {
    var serves, outcomes :=
      Filter(HasKey(key), ServeEvents(t.serves)), Filter(HasKey(key), OutcomeEvents(t.outcomes));
    QueryLocal(t, key);
    InSort(QueryOrder(), serves + outcomes);
    FilterSort(QueryOrder(), KeptBy(chain), serves + outcomes);
    FilterAppend(KeptBy(chain), serves, outcomes);
    ReadableRows(chain, t.outcomes, key);
  }

  /** Every submitted outcome row of the memory can be read. */
  ghost predicate RowsReadable(chain: Chain, rows: seq<OutcomeRow>, key: Key) {
    forall i :: 0 <= i < |rows| && rows[i].status == Submitted && OfOutcome(rows[i]).key == key ==>
      Readable(chain, OfOutcome(rows[i]))
  }

  lemma {:induction false} ReadableRows(chain: Chain, rows: seq<OutcomeRow>, key: Key)
    ensures AllReadable(chain, Filter(HasKey(key), OutcomeEvents(rows))) <==> RowsReadable(chain, rows, key)
  {
    if rows != [] {
      hide Readable;
      var rest := Filter(HasKey(key), OutcomeEvents(rows[1..]));
      ReadableRows(chain, rows[1..], key);
      FilterCons(HasKey(key), OfOutcome(rows[0]), OutcomeEvents(rows[1..]));
      assert RowsReadable(chain, rows, key) <==>
        (rows[0].status == Submitted && OfOutcome(rows[0]).key == key ==> Readable(chain, OfOutcome(rows[0])))
        && RowsReadable(chain, rows[1..], key) by {
        assert forall i :: 0 <= i < |rows[1..]| ==> rows[1..][i] == rows[i + 1];
      }
      assert forall e :: e in [OfOutcome(rows[0])] + rest <==> e == OfOutcome(rows[0]) || e in rest;
    }
  }

  lemma ReadableAfter(chain: Chain, rows: seq<OutcomeRow>, after: seq<OutcomeRow>, org: Id, handled: set<Id>, key: Key)
    requires |after| == |rows| && forall i :: 0 <= i < |rows| ==> after[i] == Sent(org, handled, rows[i])
    requires RowsReadable(chain, rows, key)
    ensures RowsReadable(chain, after, key) <==>
            forall r :: r in rows && OfOutcome(r).key == key && Disturbs(chain, org, handled, r) ==>
              Readable(chain, OfOutcome(r))
  {
    assert forall i :: 0 <= i < |rows| ==> OfOutcome(after[i]) == OfOutcome(rows[i]);
    forall r | RowsReadable(chain, after, key) && r in rows && OfOutcome(r).key == key
               && Disturbs(chain, org, handled, r)
      ensures Readable(chain, OfOutcome(r))
    {
      var i :| 0 <= i < |rows| && rows[i] == r;
      assert after[i].status == Submitted;
    }
  }

  /** One memory's load survives the marking exactly when no row of the memory is disturbed. */
  lemma LoadKeyUnchanged(t: Tables, chain: Chain, key: Key, after: seq<OutcomeRow>, org: Id, handled: set<Id>)
    requires Proper(key) && LoadKey(t, chain, key).Some?
    requires |after| == |t.outcomes|
    requires forall i :: 0 <= i < |after| ==> after[i] == Sent(org, handled, t.outcomes[i])
    ensures LoadKey(t.(outcomes := after), chain, key) == LoadKey(t, chain, key) <==>
            forall r :: r in t.outcomes && OfOutcome(r).key == key ==> !Disturbs(chain, org, handled, r)
  {
    hide KeptOutcomes, LoadKey;
    LoadKeyParts(t, chain, key);
    LoadKeyParts(t.(outcomes := after), chain, key);
    ReadableAfter(chain, t.outcomes, after, org, handled, key);
    KeptGrow(chain, t.outcomes, after, org, handled, key);
  }

  ghost predicate NoneDisturbed(rows: seq<OutcomeRow>, chain: Chain, org: Id, accepted: set<Id>, entries: seq<Entry>) {
    forall r :: r in rows && Proper(Key(r.org, r.memory)) ==> !Disturbs(chain, org, Handled(accepted, entries), r)
  }

  /** A batch that stops at a malformed entry leaves every memory's load as it was exactly when no accepted
      entry before it names a row that is not yet submitted and that the chain keeps or cannot answer for.
      Then the table still agrees with the log. */
  lemma AbortedBatchExactly(t: Tables, chain: Chain, policy: Policy, org: Id, accepted: set<Id>, entries: seq<Entry>)
    requires Agrees(t, chain, policy) && !WellFormed(entries)
    ensures var after := AfterEvents(t, chain, policy, org, accepted, entries);
            && ((forall key :: Proper(key) ==> LoadKey(after, chain, key) == LoadKey(t, chain, key)) <==>
                NoneDisturbed(t.outcomes, chain, org, accepted, entries))
            && (NoneDisturbed(t.outcomes, chain, org, accepted, entries) ==> Agrees(after, chain, policy))
  {
    hide LoadKey, Disturbs;
    var after := AfterEvents(t, chain, policy, org, accepted, entries);
    var handled := Handled(accepted, entries);
    MarkOutcomesEach(t.outcomes, org, accepted, entries);
    forall key | Proper(key)
      ensures LoadKey(after, chain, key) == LoadKey(t, chain, key) <==>
              forall r :: r in t.outcomes && OfOutcome(r).key == key ==> !Disturbs(chain, org, handled, r)
    {
      assert AgreesOn(t, chain, policy, key);
      LoadKeyUnchanged(t, chain, key, after.outcomes, org, handled);
    }
    if forall key :: Proper(key) ==> LoadKey(after, chain, key) == LoadKey(t, chain, key) {
      forall r | r in t.outcomes && Proper(Key(r.org, r.memory)) ensures !Disturbs(chain, org, handled, r) {
        assert OfOutcome(r).key == Key(r.org, r.memory);
        assert LoadKey(after, chain, Key(r.org, r.memory)) == LoadKey(t, chain, Key(r.org, r.memory));
      }
    }
    if NoneDisturbed(t.outcomes, chain, org, accepted, entries) {
      forall key | Proper(key) ensures AgreesOn(after, chain, policy, key) {
        assert AgreesOn(t, chain, policy, key);
      }
    }
  }

  /** A disturbed row leaves the table behind the log under every policy when its memory had no standing yet,
      or when a load fails on it. */
  lemma AbortedBatchFallsBehind(t: Tables, chain: Chain, policy: Policy, org: Id, accepted: set<Id>,
                                entries: seq<Entry>, r: OutcomeRow)
    requires Agrees(t, chain, policy) && !WellFormed(entries)
    requires r in t.outcomes && Proper(Key(r.org, r.memory)) && Disturbs(chain, org, Handled(accepted, entries), r)
    requires Key(r.org, r.memory) !in t.standing || !Readable(chain, OfOutcome(r))
    ensures !Agrees(AfterEvents(t, chain, policy, org, accepted, entries), chain, policy)
  {
    hide LoadKey;
    var after := AfterEvents(t, chain, policy, org, accepted, entries);
    var key, handled := Key(r.org, r.memory), Handled(accepted, entries);
    MarkOutcomesEach(t.outcomes, org, accepted, entries);
    assert AgreesOn(t, chain, policy, key);
    LoadKeyUnchanged(t, chain, key, after.outcomes, org, handled);
    LoadKeyParts(t, chain, key);
    LoadKeyParts(after, chain, key);
    ReadableAfter(chain, t.outcomes, after.outcomes, org, handled, key);
    assert OfOutcome(r).key == key;
    assert !AgreesOn(after, chain, policy, key);
  }
}
