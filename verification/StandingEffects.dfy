/** What the batch bookkeeping does to the rows, and what a memory's rows come to
    (wevibe-hub/internal/chain/watcher_serve.go, wevibe-hub/internal/chain/standing_projection.go). */
module StandingEffects {
  import opened StableSort
  import opened StandingLog
  import opened StandingProjection
  import opened StandingTallies
  import Engine = StandingEngine
  import opened Wrappers

  // ----- the marks -----

  lemma {:induction false} ServesMarked(rows: seq<ServeRow>, org: Id, memory: Id, denial: bool)
    ensures var after := MarkServes(rows, org, memory, denial);
            && |after| == |rows|
            && forall i :: 0 <= i < |rows| ==>
                 var r := rows[i];
                 after[i] == if r.org == org && r.memory == memory && r.status == Pending && r.denial == denial
                             then r.(status := Submitted) else r
  {
    if rows != [] {
      ServesMarked(rows[1..], org, memory, denial);
    }
  }

  /** A serve batch submits the org's pending rows of its kind for the memories listed, and no other. */
  lemma {:induction false} AllServesMarked(rows: seq<ServeRow>, org: Id, memories: seq<Id>, denial: bool)
    ensures var after := MarkAllServes(rows, org, memories, denial);
            && |after| == |rows|
            && forall i :: 0 <= i < |rows| ==>
                 var r := rows[i];
                 after[i] == if r.org == org && r.memory in memories && r.status == Pending && r.denial == denial
                             then r.(status := Submitted) else r
    decreases |memories|
  {
    if memories != [] {
      ServesMarked(rows, org, memories[0], denial);
      AllServesMarked(MarkServes(rows, org, memories[0], denial), org, memories[1..], denial);
      assert memories == [memories[0]] + memories[1..];
    }
  }

  /** Some accepted entry before the first malformed one has this fingerprint. */
  ghost predicate Reached(accepted: set<Id>, entries: seq<Entry>, fingerprint: Id) {
    exists k :: 0 <= k < |entries| && WellFormed(entries[..k]) && entries[k].Entry?
                && entries[k].fingerprint == fingerprint && fingerprint in accepted
  }

  lemma ReachedTail(accepted: set<Id>, entries: seq<Entry>, fingerprint: Id)
    requires entries != [] && entries[0] != Malformed
    ensures Reached(accepted, entries, fingerprint)
            <==> (entries[0].Entry? && entries[0].fingerprint == fingerprint && fingerprint in accepted)
                 || Reached(accepted, entries[1..], fingerprint)
  {
    if Reached(accepted, entries, fingerprint) {
      var k :| 0 <= k < |entries| && WellFormed(entries[..k]) && entries[k].Entry?
               && entries[k].fingerprint == fingerprint && fingerprint in accepted;
      if k > 0 {
        var p := k - 1;
        assert forall i :: 0 <= i < p ==> entries[1..][..p][i] == entries[..k][i + 1];
        assert entries[1..][p] == entries[k];
      }
    }
    if Reached(accepted, entries[1..], fingerprint) {
      var k :| 0 <= k < |entries[1..]| && WellFormed(entries[1..][..k]) && entries[1..][k].Entry?
               && entries[1..][k].fingerprint == fingerprint && fingerprint in accepted;
      var upTo := entries[..k + 1];
      forall i | 0 <= i < |upTo| ensures upTo[i] != Malformed
      {
        if i > 0 {
          assert upTo[i] == entries[1..][..k][i - 1];
        }
      }
      assert WellFormed(upTo) && entries[k + 1].Entry?;
    }
  }

  lemma {:induction false} HandledExactly(accepted: set<Id>, entries: seq<Entry>)
    ensures forall f :: f in Handled(accepted, entries) <==> Reached(accepted, entries, f)
  {
    if entries == [] {
    } else if entries[0] == Malformed {
      assert forall k :: 0 < k <= |entries| ==> entries[..k][0] == Malformed;
    } else {
      HandledExactly(accepted, entries[1..]);
      forall f ensures f in Handled(accepted, entries) <==> Reached(accepted, entries, f)
      {
        ReachedTail(accepted, entries, f);
      }
    }
  }

  /** An event batch submits the org's rows that an accepted entry names before the first malformed one, whatever
      their status was, and no other. */
  lemma OutcomesMarked(rows: seq<OutcomeRow>, org: Id, accepted: set<Id>, entries: seq<Entry>)
    ensures var after := MarkOutcomes(rows, org, accepted, entries);
            && |after| == |rows|
            && forall i :: 0 <= i < |rows| ==>
                 after[i] == if rows[i].org == org && Reached(accepted, entries, rows[i].fingerprint)
                             then rows[i].(status := Submitted) else rows[i]
  {
    MarkOutcomesEach(rows, org, accepted, entries);
    HandledExactly(accepted, entries);
    hide Reached, Handled, MarkOutcomes;
  }

  // ----- from rows to tallies -----

  /** The tally that a serve and the one outcome that names it come to. */
  function TallyOf(policy: Policy, serve: ServeRow, outcome: OutcomeRow): Engine.Tally {
    if outcome.epoch > serve.epoch + policy.window then Engine.Tally(0, 0, true)
    else match outcome.resolution
      case Worked => Engine.Tally(policy.quanta, 0, true)
      case DidntWork => Engine.Tally(0, 1, true)
      case Unobserved => Engine.Tally(0, 0, true)
  }

  lemma BothLoaded(serve: ServeRow, outcome: OutcomeRow, chain: Chain)
    requires serve.status == outcome.status == Submitted && serve.org == outcome.org && serve.memory == outcome.memory
    requires 0 <= serve.epoch <= outcome.epoch
    requires chain(outcome.org, outcome.epoch).Some? && outcome.fingerprint in chain(outcome.org, outcome.epoch).value
    ensures var loaded := Load([serve], [outcome], chain, serve.org, serve.memory);
            && loaded.Some? && multiset(loaded.value) == multiset{OfServe(serve), OfOutcome(outcome)}
  {
    var x, y := OfServe(serve), OfOutcome(outcome);
    assert [serve][1..] == [] && [outcome][1..] == [];
    assert ServeEvents([]) == [] && OutcomeEvents([]) == [];
    assert ServeEvents([serve]) == [x] + ServeEvents([serve][1..]);
    assert OutcomeEvents([outcome]) == [y] + OutcomeEvents([outcome][1..]);
    var asked := Matching(serve.org, serve.memory);
    assert ServeEvents([serve]) + OutcomeEvents([outcome]) == [x, y];
    FilterAll(asked, [x, y]);
    var query := Query([serve], [outcome], serve.org, serve.memory);
    assert query == Sort(QueryOrder(), [x, y]);
    SortMultiset(QueryOrder(), [x, y]);
    InSort(QueryOrder(), [x, y]);
    assert AllReadable(chain, query);
    FilterAll(KeptBy(chain), query);
  }

  lemma ConvertedBoth(events: seq<Event>, x: Event, y: Event)
    requires multiset(events) == multiset{x, y}
    ensures multiset(Converted(events)) == multiset{ToEngine(x), ToEngine(y)}
    ensures EpochOf(x) <= EpochOf(y) ==> Earliest(events) == EpochOf(x) && Latest(events) == EpochOf(y)
  {
    assert |events| == |multiset(events)| == 2;
    assert events == [events[0], events[1]];
    assert events[1..] == [events[1]] && [events[1]][1..] == [];
    assert Converted([events[1]]) == [ToEngine(events[1])];
    assert Converted(events) == [ToEngine(events[0]), ToEngine(events[1])];
    assert events[0] in multiset(events) && events[1] in multiset(events);
    assert x in multiset(events) && y in multiset(events);
  }

  /** A memory with one submitted serve and one outcome for it that the chain lists has the standing of that one
      tally, over the epochs from the serve to the outcome. */
  lemma StandingOfOneServe(t: Tables, serve: ServeRow, outcome: OutcomeRow, chain: Chain, policy: Policy)
    requires t.serves == [serve] && t.outcomes == [outcome]
    requires serve.status == outcome.status == Submitted && serve.org == outcome.org && serve.memory == outcome.memory
    requires !serve.denial && outcome.serveRef == serve.fingerprint != 0 && 0 <= serve.epoch <= outcome.epoch
    requires chain(outcome.org, outcome.epoch).Some? && outcome.fingerprint in chain(outcome.org, outcome.epoch).value
    ensures var loaded := LoadKey(t, chain, Key(serve.org, serve.memory));
            && loaded.Some?
            && Compute(policy, loaded.value)
               == policy.finish(map[serve.epoch as nat := TallyOf(policy, serve, outcome)], serve.epoch, outcome.epoch)
  {
    BothLoaded(serve, outcome, chain);
    var events := LoadKey(t, chain, Key(serve.org, serve.memory)).value;
    var x, y := OfServe(serve), OfOutcome(outcome);
    ConvertedBoth(events, x, y);
    var ordered := Sort(Engine.Order(), Converted(events));
    OrderIsTotal();
    SortMultiset(Engine.Order(), Converted(events));
    SortSorted(Engine.Order(), Converted(events));
    hide Sort, Converted, Engine.Fold, Engine.Before, LoadKey, Load;
    OneServe(ordered, ToEngine(x), ToEngine(y), Range(policy, events));
  }

  /** A submitted denial comes to one denial in its epoch. */
  lemma StandingOfOneDenial(t: Tables, row: ServeRow, chain: Chain, policy: Policy)
    requires t.serves == [row] && t.outcomes == [] && row.status == Submitted && row.denial && row.epoch >= 0
    ensures var loaded := LoadKey(t, chain, Key(row.org, row.memory));
            && loaded.Some?
            && Compute(policy, loaded.value)
               == policy.finish(map[row.epoch as nat := Engine.Tally(0, 1, true)], row.epoch, row.epoch)
  {
    var e := OfServe(row);
    assert [row][1..] == [] && ServeEvents([]) == [] && OutcomeEvents([]) == [];
    assert ServeEvents([row]) == [e] + ServeEvents([row][1..]);
    assert ServeEvents([row]) + OutcomeEvents([]) == [e];
    FilterAll(Matching(row.org, row.memory), [e]);
    assert Sort(QueryOrder(), [e]) == [e] by {
      assert [e][1..] == [] && Sort(QueryOrder(), []) == [];
    }
    FilterAll(KeptBy(chain), [e]);
    OneBlock(e, policy);
  }

  lemma OneBlock(e: Event, policy: Policy)
    requires e.kind == Engine.Block
    ensures Compute(policy, [e]) == policy.finish(map[EpochOf(e) := Engine.Tally(0, 1, true)], EpochOf(e), EpochOf(e))
  {
    assert [e][1..] == [] && Converted([]) == [];
    var x := ToEngine(e);
    assert Converted([e]) == [x] + Converted([e][1..]);
    assert [x][1..] == [] && Sort(Engine.Order(), []) == [];
    assert Sort(Engine.Order(), [x]) == [x];
    var c := Range(policy, [e]);
    assert Engine.Fold(Engine.START, [x], c) == Engine.Fold(Engine.Step(Engine.START, x, c), [], c);
    assert Engine.Step(Engine.START, x, c).tallies == map[x.epoch := Engine.Tally(0, 1, true)];
  }

  lemma OrderIsTotal()
    ensures TotalPreorder(Engine.Order())
  {
  }
}
