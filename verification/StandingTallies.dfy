/** What a memory's tallies count, said of the events themselves
    (wevibe-hub/internal/standing/engine.go). */
module StandingTallies {
  import opened StableSort
  import opened StandingEngine

  // ----- which serve each outcome claims -----

  predicate Counts(e: Event, c: Config) {
    c.created <= e.epoch <= c.current
  }

  predicate IsOutcome(e: Event) {
    e.kind == Worked || e.kind == Failed
  }

  /** Outcome `o` may claim serve `i`: both count, the serve came first and is named by the outcome, the window
      has not passed, and no earlier outcome claimed it. `claims` maps outcomes to the serves they claim. */
  ghost predicate MayClaim(events: seq<Event>, c: Config, claims: map<nat, nat>, o: nat, i: nat) {
    && i < o < |events|
    && Counts(events[o], c) && IsOutcome(events[o])
    && Counts(events[i], c) && events[i].kind == Serve
    && events[i].ref == events[o].ref != 0
    && events[i].epoch <= events[o].epoch <= events[i].epoch + c.window
    && forall p :: p in claims && p < o ==> claims[p] != i
  }

  /** Of the first `n` events, every outcome that may claim a serve claims the first it may. */
  ghost predicate ClaimsUpTo(events: seq<Event>, c: Config, claims: map<nat, nat>, n: nat) {
    && (forall o :: o in claims ==>
          && o < n && MayClaim(events, c, claims, o, claims[o])
          && forall i :: 0 <= i < claims[o] ==> !MayClaim(events, c, claims, o, i))
    && (forall o: nat, i: nat :: o < n && MayClaim(events, c, claims, o, i) ==> o in claims)
  }

  ghost predicate FirstClaims(events: seq<Event>, c: Config, claims: map<nat, nat>) {
    ClaimsUpTo(events, c, claims, |events|)
  }

  lemma LeastClaim(events: seq<Event>, c: Config, claims: map<nat, nat>, o: nat, i: nat) returns (least: nat)
    requires MayClaim(events, c, claims, o, i)
    ensures MayClaim(events, c, claims, o, least) && forall k :: 0 <= k < least ==> !MayClaim(events, c, claims, o, k)
  {
    least := 0;
    while !MayClaim(events, c, claims, o, least)
      invariant least <= i && forall k :: 0 <= k < least ==> !MayClaim(events, c, claims, o, k)
      decreases i - least
    {
      least := least + 1;
    }
  }

  lemma {:induction false} ClaimsExist(events: seq<Event>, c: Config, n: nat) returns (claims: map<nat, nat>)
    requires n <= |events|
    ensures ClaimsUpTo(events, c, claims, n)
  {
    if n == 0 {
      claims := map[];
    } else {
      var o := n - 1;
      var before := ClaimsExist(events, c, o);
      claims := before;
      if i: nat :| MayClaim(events, c, before, o, i) {
        var least := LeastClaim(events, c, before, o, i);
        claims := before[o := least];
      }
      ClaimsExtend(events, c, before, claims, o);
    }
  }

  lemma ClaimsExtend(events: seq<Event>, c: Config, before: map<nat, nat>, claims: map<nat, nat>, o: nat)
    requires ClaimsUpTo(events, c, before, o)
    requires if o in claims then
               && claims == before[o := claims[o]] && MayClaim(events, c, before, o, claims[o])
               && (forall k :: 0 <= k < claims[o] ==> !MayClaim(events, c, before, o, k))
             else claims == before && forall i: nat :: !MayClaim(events, c, before, o, i)
    ensures ClaimsUpTo(events, c, claims, o + 1)
  {
    assert forall p :: p < o ==> (p in claims <==> p in before) && (p in before ==> claims[p] == before[p]);
    forall p: nat, i: nat | p <= o
      ensures MayClaim(events, c, claims, p, i) <==> MayClaim(events, c, before, p, i)
    {
    }
  }

  /** There is only one way for the outcomes to claim. */
  lemma ClaimsUnique(events: seq<Event>, c: Config, a: map<nat, nat>, b: map<nat, nat>)
    requires FirstClaims(events, c, a) && FirstClaims(events, c, b)
    ensures a == b
  {
    var o := 0;
    while o < |events|
      invariant o <= |events|
      invariant forall p :: 0 <= p < o ==> (p in a <==> p in b) && (p in a ==> a[p] == b[p])
    {
      forall i: nat ensures MayClaim(events, c, a, o, i) <==> MayClaim(events, c, b, o, i)
      {
      }
      if o in a {
        assert MayClaim(events, c, b, o, a[o]);
      }
      if o in b {
        assert MayClaim(events, c, a, o, b[o]);
      }
      o := o + 1;
    }
    assert a.Keys == b.Keys;
  }

  // ----- the counts -----

  /** The serves claimed by the outcomes among the first `n` events. */
  function Claimed(claims: map<nat, nat>, n: nat): set<nat> {
    set o | o in claims && o < n :: claims[o]
  }

  /** Those of an epoch, claimed by an outcome of this kind. */
  function ClaimedServes(events: seq<Event>, claims: map<nat, nat>, kind: Kind, epoch: nat, n: nat): set<nat> {
    set o | o in claims && o < n <= |events| && claims[o] < |events|
            && events[o].kind == kind && events[claims[o]].epoch == epoch :: claims[o]
  }

  /** The events of a kind that count. */
  function OfKind(events: seq<Event>, c: Config, kind: Kind, n: nat): set<nat> {
    set i | 0 <= i < n && n <= |events| && Counts(events[i], c) && events[i].kind == kind
  }

  function InEpoch(events: seq<Event>, c: Config, kind: Kind, epoch: nat, n: nat): set<nat> {
    set i | i in OfKind(events, c, kind, n) && events[i].epoch == epoch
  }

  /** The tally of an epoch: so much for each of its serves that worked, one denial for each that failed and for
      each block, and activity wherever a serve or a block falls. */
  function Counted(events: seq<Event>, c: Config, claims: map<nat, nat>, epoch: nat, n: nat): Tally {
    Tally(
      c.quanta * |ClaimedServes(events, claims, Worked, epoch, n)|,
      |InEpoch(events, c, Block, epoch, n)| + |ClaimedServes(events, claims, Failed, epoch, n)|,
      InEpoch(events, c, Serve, epoch, n) != {} || InEpoch(events, c, Block, epoch, n) != {})
  }

  // ----- the fold, event by event -----

  /** The places of the serves that count, in order. */
  function ServePlaces(events: seq<Event>, c: Config, n: nat): (r: seq<nat>)
    requires n <= |events|
    ensures forall k :: 0 <= k < |r| ==> r[k] in OfKind(events, c, Serve, n)
    ensures forall j, k :: 0 <= j < k < |r| ==> r[j] < r[k]
  {
    if n == 0 then []
    else if Counts(events[n - 1], c) && events[n - 1].kind == Serve then ServePlaces(events, c, n - 1) + [n - 1]
    else ServePlaces(events, c, n - 1)
  }

  lemma {:induction false} PlacesExactly(events: seq<Event>, c: Config, n: nat)
    requires n <= |events|
    ensures forall i :: i in OfKind(events, c, Serve, n) <==> i in ServePlaces(events, c, n)
  {
    if n > 0 {
      PlacesExactly(events, c, n - 1);
    }
  }

  ghost predicate TracksPending(st: State, events: seq<Event>, c: Config, claims: map<nat, nat>, n: nat)
    requires n <= |events|
  {
    var places := ServePlaces(events, c, n);
    && |st.pending| == |places|
    && forall k :: 0 <= k < |places| ==>
         && st.pending[k].epoch == events[places[k]].epoch && st.pending[k].ref == events[places[k]].ref
         && (st.pending[k].claimed <==> places[k] in Claimed(claims, n))
  }

  ghost predicate TracksTallies(st: State, events: seq<Event>, c: Config, claims: map<nat, nat>, n: nat)
    requires n <= |events|
  {
    && (forall epoch :: At(st.tallies, epoch) == Counted(events, c, claims, epoch, n))
    && (forall epoch :: epoch in st.tallies ==> st.tallies[epoch].activity)
    && st.unobserved == |OfKind(events, c, Unobserved, n)|
  }

  lemma PairsIsMayClaim(st: State, events: seq<Event>, c: Config, claims: map<nat, nat>, o: nat, j: nat)
    requires o < |events| && Counts(events[o], c) && IsOutcome(events[o])
    requires TracksPending(st, events, c, claims, o) && j < |ServePlaces(events, c, o)|
    ensures Pairs(st.pending[j], events[o], c.window) <==> MayClaim(events, c, claims, o, ServePlaces(events, c, o)[j])
  {
    var i := ServePlaces(events, c, o)[j];
    assert i in OfKind(events, c, Serve, o);
    assert i in Claimed(claims, o) <==> exists p :: p in claims && p < o && claims[p] == i;
  }

  /** The serve that `Match` finds is the one the outcome claims. */
  lemma MatchIsClaim(st: State, events: seq<Event>, c: Config, claims: map<nat, nat>, o: nat)
    requires o < |events| && Counts(events[o], c) && IsOutcome(events[o])
    requires FirstClaims(events, c, claims) && TracksPending(st, events, c, claims, o)
    ensures var places := ServePlaces(events, c, o);
            var k := Match(st.pending, events[o], c.window);
            && (o in claims <==> k < |places|)
            && (k < |places| ==> claims[o] == places[k])
  {
    var places := ServePlaces(events, c, o);
    var k := Match(st.pending, events[o], c.window);
    PlacesExactly(events, c, o);
    if o in claims {
      var i := claims[o];
      assert MayClaim(events, c, claims, o, i) && i in OfKind(events, c, Serve, o);
      var j :| 0 <= j < |places| && places[j] == i;
      PairsIsMayClaim(st, events, c, claims, o, j);
      assert k <= j;
      PairsIsMayClaim(st, events, c, claims, o, k);
      assert i <= places[k];
    } else if k < |places| {
      PairsIsMayClaim(st, events, c, claims, o, k);
    }
  }

  lemma ClaimedGrows(events: seq<Event>, c: Config, claims: map<nat, nat>, n: nat)
    requires n < |events| && FirstClaims(events, c, claims)
    ensures Claimed(claims, n + 1) == if n in claims then Claimed(claims, n) + {claims[n]} else Claimed(claims, n)
    ensures n in claims ==> MayClaim(events, c, claims, n, claims[n]) && claims[n] !in Claimed(claims, n)
    ensures n !in Claimed(claims, n)
  {
    if n in claims {
      assert MayClaim(events, c, claims, n, claims[n]);
    }
    forall p | p in claims && p < n ensures claims[p] != n
    {
      assert MayClaim(events, c, claims, p, claims[p]);
    }
  }

  lemma OutcomeTracked(st: State, events: seq<Event>, c: Config, claims: map<nat, nat>, n: nat)
    requires n < |events| && Counts(events[n], c) && IsOutcome(events[n])
    requires FirstClaims(events, c, claims) && TracksPending(st, events, c, claims, n)
    ensures TracksPending(Step(st, events[n], c), events, c, claims, n + 1)
  {
    var places := ServePlaces(events, c, n);
    ClaimedGrows(events, c, claims, n);
    MatchIsClaim(st, events, c, claims, n);
    hide FirstClaims, MayClaim, Match, Claimed, OfKind;
    assert ServePlaces(events, c, n + 1) == places;
    hide ServePlaces;
    var k := Match(st.pending, events[n], c.window);
    assert forall j :: 0 <= j < |places| && j != k ==> k == |places| || places[j] != places[k];
  }

  lemma PendingTracked(st: State, events: seq<Event>, c: Config, claims: map<nat, nat>, n: nat)
    requires n < |events| && events[n].epoch <= c.current
    requires FirstClaims(events, c, claims) && TracksPending(st, events, c, claims, n)
    ensures TracksPending(Step(st, events[n], c), events, c, claims, n + 1)
  {
    var e := events[n];
    var places := ServePlaces(events, c, n);
    if Counts(e, c) && IsOutcome(e) {
      OutcomeTracked(st, events, c, claims, n);
    } else {
      ClaimedGrows(events, c, claims, n);
      hide MayClaim, Claimed, Match;
      assert n !in claims;
      if Counts(e, c) && e.kind == Serve {
        assert ServePlaces(events, c, n + 1) == places + [n];
      }
    }
  }

  // ----- one more event in the counts -----

  lemma KindGrows(events: seq<Event>, c: Config, kind: Kind, epoch: nat, n: nat)
    requires n < |events|
    ensures var (e, before) := (events[n], OfKind(events, c, kind, n));
            && n !in before
            && OfKind(events, c, kind, n + 1) == if Counts(e, c) && e.kind == kind then before + {n} else before
    ensures var (e, before) := (events[n], InEpoch(events, c, kind, epoch, n));
            && n !in before
            && InEpoch(events, c, kind, epoch, n + 1)
               == if Counts(e, c) && e.kind == kind && e.epoch == epoch then before + {n} else before
  {
  }

  lemma InClaimed(events: seq<Event>, claims: map<nat, nat>, kind: Kind, epoch: nat, n: nat, x: nat)
    requires x in ClaimedServes(events, claims, kind, epoch, n)
    ensures x in Claimed(claims, n)
  {
  }

  lemma OneMoreOutcome(events: seq<Event>, claims: map<nat, nat>, kind: Kind, epoch: nat, n: nat)
    requires n < |events| && (n in claims ==> claims[n] < |events|)
    ensures var before := ClaimedServes(events, claims, kind, epoch, n);
            ClaimedServes(events, claims, kind, epoch, n + 1)
            == if n in claims && events[n].kind == kind && events[claims[n]].epoch == epoch then before + {claims[n]} else before
  {
    var before := ClaimedServes(events, claims, kind, epoch, n);
    var after := ClaimedServes(events, claims, kind, epoch, n + 1);
    forall x | x in after ensures x in before || (n in claims && x == claims[n])
    {
      var o :| o in claims && o < n + 1 && claims[o] < |events| && events[o].kind == kind
               && events[claims[o]].epoch == epoch && claims[o] == x;
    }
  }

  lemma ServesGrow(events: seq<Event>, c: Config, claims: map<nat, nat>, kind: Kind, epoch: nat, n: nat)
    requires n < |events| && FirstClaims(events, c, claims)
    ensures n in claims ==> claims[n] < n && claims[n] !in ClaimedServes(events, claims, kind, epoch, n)
    ensures var before := ClaimedServes(events, claims, kind, epoch, n);
            ClaimedServes(events, claims, kind, epoch, n + 1)
            == if n in claims && events[n].kind == kind && events[claims[n]].epoch == epoch then before + {claims[n]} else before
  {
    ClaimedGrows(events, c, claims, n);
    if n in claims {
      assert MayClaim(events, c, claims, n, claims[n]);
      if claims[n] in ClaimedServes(events, claims, kind, epoch, n) {
        InClaimed(events, claims, kind, epoch, n, claims[n]);
      }
    }
    hide MayClaim, FirstClaims, Claimed, ClaimedServes;
    OneMoreOutcome(events, claims, kind, epoch, n);
  }

  lemma OneMore(before: set<nat>, x: nat)
    requires x !in before
    ensures |before + {x}| == |before| + 1 && before + {x} != {}
  {
  }

  lemma ClaimedServesCount(events: seq<Event>, c: Config, claims: map<nat, nat>, kind: Kind, epoch: nat, n: nat)
    requires n < |events| && FirstClaims(events, c, claims)
    ensures n in claims ==> claims[n] < n
    ensures |ClaimedServes(events, claims, kind, epoch, n + 1)|
         == |ClaimedServes(events, claims, kind, epoch, n)|
            + if n in claims && events[n].kind == kind && events[claims[n]].epoch == epoch then 1 else 0
  {
    ServesGrow(events, c, claims, kind, epoch, n);
    hide FirstClaims, ClaimedServes;
    if n in claims {
      OneMore(ClaimedServes(events, claims, kind, epoch, n), claims[n]);
    }
  }

  lemma KindCount(events: seq<Event>, c: Config, kind: Kind, epoch: nat, n: nat)
    requires n < |events|
    ensures var (e, before) := (events[n], InEpoch(events, c, kind, epoch, n));
            if Counts(e, c) && e.kind == kind && e.epoch == epoch then
              |InEpoch(events, c, kind, epoch, n + 1)| == |before| + 1 && InEpoch(events, c, kind, epoch, n + 1) != {}
            else InEpoch(events, c, kind, epoch, n + 1) == before
  {
    KindGrows(events, c, kind, epoch, n);
    hide InEpoch;
    OneMore(InEpoch(events, c, kind, epoch, n), n);
  }

  lemma ClaimFacts(events: seq<Event>, c: Config, claims: map<nat, nat>, n: nat)
    requires n < |events| && FirstClaims(events, c, claims) && n in claims
    ensures claims[n] < n && Counts(events[n], c) && IsOutcome(events[n])
    ensures InEpoch(events, c, Serve, events[claims[n]].epoch, n) != {}
  {
    assert MayClaim(events, c, claims, n, claims[n]);
    assert claims[n] in InEpoch(events, c, Serve, events[claims[n]].epoch, n);
  }

  lemma MoreQuanta(quanta: nat, before: nat, after: nat, more: bool)
    requires after == before + if more then 1 else 0
    ensures quanta * after == quanta * before + if more then quanta else 0
  {
  }

  lemma CountedGrows(events: seq<Event>, c: Config, claims: map<nat, nat>, n: nat, epoch: nat)
    requires n < |events| && FirstClaims(events, c, claims)
    ensures n in claims ==> claims[n] < n && Counts(events[n], c) && IsOutcome(events[n])
    ensures n in claims && events[claims[n]].epoch == epoch ==> Counted(events, c, claims, epoch, n).activity
    ensures var (e, t) := (events[n], Counted(events, c, claims, epoch, n));
            Counted(events, c, claims, epoch, n + 1) ==
            if n in claims && events[claims[n]].epoch == epoch then
              if e.kind == Worked then t.(serves := t.serves + c.quanta) else t.(denials := t.denials + 1)
            else if Counts(e, c) && e.epoch == epoch && e.kind == Serve then t.(activity := true)
            else if Counts(e, c) && e.epoch == epoch && e.kind == Block then Tally(t.serves, t.denials + 1, true)
            else t
  {
    ClaimedServesCount(events, c, claims, Worked, epoch, n);
    ClaimedServesCount(events, c, claims, Failed, epoch, n);
    KindCount(events, c, Block, epoch, n);
    KindCount(events, c, Serve, epoch, n);
    if n in claims {
      ClaimFacts(events, c, claims, n);
    }
    hide FirstClaims, ClaimedServes, InEpoch, Counts, IsOutcome;
    var works := n in claims && events[n].kind == Worked && events[claims[n]].epoch == epoch;
    MoreQuanta(c.quanta, |ClaimedServes(events, claims, Worked, epoch, n)|,
               |ClaimedServes(events, claims, Worked, epoch, n + 1)|, works);
  }

  lemma TallyGrows(st: State, events: seq<Event>, c: Config, claims: map<nat, nat>, n: nat, epoch: nat)
    requires n < |events| && events[n].epoch <= c.current && FirstClaims(events, c, claims)
    requires TracksPending(st, events, c, claims, n) && At(st.tallies, epoch) == Counted(events, c, claims, epoch, n)
    ensures At(Step(st, events[n], c).tallies, epoch) == Counted(events, c, claims, epoch, n + 1)
  {
    var e := events[n];
    CountedGrows(events, c, claims, n, epoch);
    if Counts(e, c) && IsOutcome(e) {
      MatchIsClaim(st, events, c, claims, n);
      hide FirstClaims, Counted;
    } else {
      hide FirstClaims, Counted, TracksPending;
    }
  }

  ghost predicate Tracks(st: State, events: seq<Event>, c: Config, claims: map<nat, nat>, n: nat)
    requires n <= |events|
  {
    TracksPending(st, events, c, claims, n) && TracksTallies(st, events, c, claims, n)
  }

  lemma StepUnobserved(st: State, events: seq<Event>, c: Config, n: nat)
    requires n < |events| && events[n].epoch <= c.current && st.unobserved == |OfKind(events, c, Unobserved, n)|
    ensures Step(st, events[n], c).unobserved == |OfKind(events, c, Unobserved, n + 1)|
  {
    KindGrows(events, c, Unobserved, 0, n);
    hide OfKind, Match;
    OneMore(OfKind(events, c, Unobserved, n), n);
  }

  lemma StepActive(st: State, e: Event, c: Config)
    requires forall epoch :: epoch in st.tallies ==> st.tallies[epoch].activity
    ensures forall epoch :: epoch in Step(st, e, c).tallies ==> Step(st, e, c).tallies[epoch].activity
  {
    hide Match;
  }

  lemma StepTracks(st: State, events: seq<Event>, c: Config, claims: map<nat, nat>, n: nat)
    requires n < |events| && events[n].epoch <= c.current
    requires FirstClaims(events, c, claims) && Tracks(st, events, c, claims, n)
    ensures Tracks(Step(st, events[n], c), events, c, claims, n + 1)
  {
    PendingTracked(st, events, c, claims, n);
    StepUnobserved(st, events, c, n);
    StepActive(st, events[n], c);
    hide Step, FirstClaims, TracksPending, OfKind, Counted;
    forall epoch: nat ensures At(Step(st, events[n], c).tallies, epoch) == Counted(events, c, claims, epoch, n + 1)
    {
      TallyGrows(st, events, c, claims, n, epoch);
    }
  }

  ghost predicate EpochsInOrder(events: seq<Event>) {
    forall i, j :: 0 <= i < j < |events| ==> events[i].epoch <= events[j].epoch
  }

  lemma {:induction false} PlacesBeyond(events: seq<Event>, c: Config, n: nat, m: nat)
    requires n <= m <= |events| && forall i :: n <= i < m ==> !Counts(events[i], c)
    ensures ServePlaces(events, c, m) == ServePlaces(events, c, n)
    decreases m
  {
    if n < m {
      PlacesBeyond(events, c, n, m - 1);
    }
  }

  /** Events past the current epoch change no count. */
  lemma TracksBeyond(st: State, events: seq<Event>, c: Config, claims: map<nat, nat>, n: nat)
    requires n <= |events| && forall i :: n <= i < |events| ==> !Counts(events[i], c)
    requires FirstClaims(events, c, claims) && Tracks(st, events, c, claims, n)
    ensures Tracks(st, events, c, claims, |events|)
  {
    PlacesBeyond(events, c, n, |events|);
    forall o | o in claims ensures o < n
    {
      assert MayClaim(events, c, claims, o, claims[o]);
    }
    assert Claimed(claims, |events|) == Claimed(claims, n);
    forall kind ensures OfKind(events, c, kind, |events|) == OfKind(events, c, kind, n)
    {
    }
    forall epoch, kind
      ensures InEpoch(events, c, kind, epoch, |events|) == InEpoch(events, c, kind, epoch, n)
    {
    }
    forall epoch, kind
      ensures ClaimedServes(events, claims, kind, epoch, |events|) == ClaimedServes(events, claims, kind, epoch, n)
    {
    }
    hide FirstClaims, OfKind, InEpoch, ClaimedServes, Claimed;
    forall epoch: nat ensures Counted(events, c, claims, epoch, |events|) == Counted(events, c, claims, epoch, n)
    {
    }
    hide Counted;
  }

  lemma {:induction false} FoldTracks(st: State, events: seq<Event>, c: Config, claims: map<nat, nat>, n: nat)
    requires n <= |events| && EpochsInOrder(events)
    requires FirstClaims(events, c, claims) && Tracks(st, events, c, claims, n)
    ensures Tracks(Fold(st, events[n..], c), events, c, claims, |events|)
    decreases |events| - n
  {
    hide FirstClaims, Tracks, Step;
    if n < |events| && events[n].epoch <= c.current {
      StepTracks(st, events, c, claims, n);
      assert events[n..][1..] == events[n + 1..];
      FoldTracks(Step(st, events[n], c), events, c, claims, n + 1);
    } else {
      TracksBeyond(st, events, c, claims, n);
    }
  }

  function SetOf(places: seq<nat>): set<nat> {
    set i | i in places
  }

  lemma {:induction false} UnclaimedCounts(pending: seq<PendingServe>, places: seq<nat>, claimed: set<nat>)
    requires |pending| == |places|
    requires forall j, k :: 0 <= j < k < |places| ==> places[j] < places[k]
    requires forall k :: 0 <= k < |places| ==> (pending[k].claimed <==> places[k] in claimed)
    ensures Unclaimed(pending) == |SetOf(places) - claimed|
  {
    if pending == [] {
      assert SetOf(places) - claimed == {};
    } else {
      var rest := places[1..];
      forall k | 0 <= k < |rest| ensures pending[1..][k].claimed <==> rest[k] in claimed
      {
        assert rest[k] == places[k + 1];
      }
      UnclaimedCounts(pending[1..], rest, claimed);
      SetOfCons(places);
      UnclaimedHead(SetOf(rest), places[0], claimed);
    }
  }

  lemma SetOfCons(places: seq<nat>)
    requires places != [] && forall j, k :: 0 <= j < k < |places| ==> places[j] < places[k]
    ensures SetOf(places) == SetOf(places[1..]) + {places[0]} && places[0] !in SetOf(places[1..])
  {
    assert places == [places[0]] + places[1..];
  }

  lemma UnclaimedHead(rest: set<nat>, x: nat, claimed: set<nat>)
    requires x !in rest
    ensures |rest + {x} - claimed| == |rest - claimed| + if x in claimed then 0 else 1
  {
    if x in claimed {
      assert rest + {x} - claimed == rest - claimed;
    } else {
      assert rest + {x} - claimed == (rest - claimed) + {x};
    }
  }

  lemma VoidsExactly(st: State, events: seq<Event>, c: Config, claims: map<nat, nat>)
    requires FirstClaims(events, c, claims) && TracksPending(st, events, c, claims, |events|)
    ensures Unclaimed(st.pending) == |OfKind(events, c, Serve, |events|) - claims.Values|
  {
    var n := |events|;
    PlacesExactly(events, c, n);
    var places := ServePlaces(events, c, n);
    assert Claimed(claims, n) == claims.Values;
    UnclaimedCounts(st.pending, places, claims.Values);
    assert SetOf(places) == OfKind(events, c, Serve, n);
  }

  lemma StartTracks(events: seq<Event>, c: Config, claims: map<nat, nat>)
    ensures Tracks(START, events, c, claims, 0)
  {
    forall kind ensures OfKind(events, c, kind, 0) == {}
    {
    }
    forall kind, epoch ensures InEpoch(events, c, kind, epoch, 0) == {} && ClaimedServes(events, claims, kind, epoch, 0) == {}
    {
    }
  }

  /** Every epoch's serves are the quanta of its serves claimed by an outcome that worked, its denials are its
      blocks and its serves claimed by one that failed, and it is listed, as active, just when a serve or a block
      falls in it. */
  ghost predicate TallyExact(tallies: map<nat, Tally>, events: seq<Event>, c: Config, claims: map<nat, nat>, epoch: nat) {
    var n := |events|;
    && (epoch in tallies <==> InEpoch(events, c, Serve, epoch, n) != {} || InEpoch(events, c, Block, epoch, n) != {})
    && (epoch in tallies ==>
          && tallies[epoch].serves == c.quanta * |ClaimedServes(events, claims, Worked, epoch, n)|
          && tallies[epoch].denials
             == |InEpoch(events, c, Block, epoch, n)| + |ClaimedServes(events, claims, Failed, epoch, n)|
          && tallies[epoch].activity)
  }

  lemma TrackedIsExact(st: State, events: seq<Event>, c: Config, claims: map<nat, nat>, epoch: nat)
    requires TracksTallies(st, events, c, claims, |events|)
    ensures TallyExact(st.tallies, events, c, claims, epoch)
  {
    hide InEpoch, OfKind, ClaimedServes;
    assert At(st.tallies, epoch) == Counted(events, c, claims, epoch, |events|);
  }

  /** The fold of the engine's ordered events, counted: however the outcomes pair off, first come first served,
      all tallies are exact, and so are the numbers of unobserved outcomes and of serves left void. */
  lemma TalliesExactly(events: seq<Event>, c: Config, claims: map<nat, nat>)
    requires EpochsInOrder(events) && FirstClaims(events, c, claims)
    ensures var final := Fold(START, events, c);
            && (forall epoch: nat :: TallyExact(final.tallies, events, c, claims, epoch))
            && final.unobserved == |OfKind(events, c, Unobserved, |events|)|
            && Unclaimed(final.pending) == |OfKind(events, c, Serve, |events|) - claims.Values|
  {
    var final := Fold(START, events, c);
    StartTracks(events, c, claims);
    assert events[0..] == events;
    FoldTracks(START, events, c, claims, 0);
    VoidsExactly(final, events, c, claims);
    hide Fold, FirstClaims, TallyExact, OfKind, TracksPending, Unclaimed;
    forall epoch: nat ensures TallyExact(final.tallies, events, c, claims, epoch)
    {
      TrackedIsExact(final, events, c, claims, epoch);
    }
  }

  // ----- the engine -----

  lemma OrderedEpochs(events: seq<Event>)
    requires Sorted(Order(), events)
    ensures EpochsInOrder(events)
  {
    assert forall i, j :: 0 <= i < j < |events| ==> Order()(events[i], events[j]);
  }

  /** One serve and one outcome naming it, within the window and in whatever order they arrived: the whole serve
      if it worked, one denial if it failed, and nothing but activity if it came too late or only says that nothing
      was observed. */
  lemma OneServe(ordered: seq<Event>, serve: Event, outcome: Event, c: Config)
    requires serve.kind == Serve && Rank(outcome.kind) == 1 && serve.ref == outcome.ref != 0
    requires c.created <= serve.epoch <= outcome.epoch <= c.current
    requires Sorted(Order(), ordered) && multiset(ordered) == multiset{serve, outcome}
    ensures Fold(START, ordered, c).tallies
         == map[serve.epoch :=
                if outcome.epoch > serve.epoch + c.window || outcome.kind == Unobserved then Tally(0, 0, true)
                else if outcome.kind == Worked then Tally(c.quanta, 0, true)
                else Tally(0, 1, true)]
  {
    ServeFirst(ordered, serve, outcome);
    assert [serve, outcome][1..] == [outcome] && [outcome][1..] == [];
    var st := Step(START, serve, c);
    assert st.pending == [PendingServe(serve.epoch, serve.ref, false)];
    assert st.pending[1..] == [];
    assert Fold(START, [serve, outcome], c) == Fold(st, [outcome], c);
    assert Fold(st, [outcome], c) == Fold(Step(st, outcome, c), [], c) == Step(st, outcome, c);
  }

  lemma ServeFirst(ordered: seq<Event>, serve: Event, outcome: Event)
    requires serve.kind == Serve && Rank(outcome.kind) == 1 && serve.epoch <= outcome.epoch
    requires Sorted(Order(), ordered) && multiset(ordered) == multiset{serve, outcome}
    ensures ordered == [serve, outcome]
  {
    assert |ordered| == |multiset(ordered)| == 2;
    assert ordered == [ordered[0], ordered[1]];
    assert multiset(ordered) == multiset{ordered[0], ordered[1]};
    assert ordered[0] in multiset(ordered) && ordered[1] in multiset(ordered);
    assert Order()(ordered[0], ordered[1]);
  }
}
