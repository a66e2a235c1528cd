/** How a memory's recall events resolve into per-epoch tallies
    (wevibe-hub/internal/standing/engine.go), and why the order of ties does not matter. */
module StandingEngine {
  // Fingerprints and references are numbers that compare as their texts do; 0 is the empty text.

  import opened StableSort

  type Fingerprint = nat

  datatype Kind = Serve | Block | Worked | Failed | Unobserved

  /** `ref` is the serve an outcome points at; `own` is the event's own fingerprint. */
  datatype Event = Event(epoch: nat, kind: Kind, ref: Fingerprint, own: Fingerprint)

  datatype Tally = Tally(serves: nat, denials: nat, activity: bool)

  datatype PendingServe = PendingServe(epoch: nat, ref: Fingerprint, claimed: bool)

  datatype State = State(pending: seq<PendingServe>, tallies: map<nat, Tally>, unobserved: nat)

  /** The epochs an event must fall in, the pairing window, and what a worked serve counts for. */
  datatype Config = Config(created: nat, current: nat, window: nat, quanta: nat)

  const START := State([], map[], 0)

  function At(tallies: map<nat, Tally>, epoch: nat): Tally {
    if epoch in tallies then tallies[epoch] else Tally(0, 0, false)
  }

  function MarkActivity(tallies: map<nat, Tally>, epoch: nat): map<nat, Tally> {
    tallies[epoch := At(tallies, epoch).(activity := true)]
  }

  function AddServe(tallies: map<nat, Tally>, epoch: nat, quanta: nat): map<nat, Tally> {
    tallies[epoch := Tally(At(tallies, epoch).serves + quanta, At(tallies, epoch).denials, true)]
  }

  function AddDenial(tallies: map<nat, Tally>, epoch: nat): map<nat, Tally> {
    tallies[epoch := Tally(At(tallies, epoch).serves, At(tallies, epoch).denials + 1, true)]
  }

  predicate Pairs(serve: PendingServe, outcome: Event, window: nat) {
    && !serve.claimed && serve.ref != 0 && serve.ref == outcome.ref
    && serve.epoch <= outcome.epoch <= serve.epoch + window
  }

  /** The first serve the outcome pairs with, or the number of serves. */
  function Match(pending: seq<PendingServe>, outcome: Event, window: nat): (r: nat)
    ensures r <= |pending|
    ensures r < |pending| ==> Pairs(pending[r], outcome, window)
    ensures forall i :: 0 <= i < r ==> !Pairs(pending[i], outcome, window)
  {
    if pending == [] then 0
    else if Pairs(pending[0], outcome, window) then 0
    else 1 + Match(pending[1..], outcome, window)
  }

  function Step(st: State, e: Event, c: Config): State {
    if e.epoch < c.created then st
    else match e.kind
      case Serve =>
        st.(pending := st.pending + [PendingServe(e.epoch, e.ref, false)], tallies := MarkActivity(st.tallies, e.epoch))
      case Block => st.(tallies := AddDenial(st.tallies, e.epoch))
      case Unobserved => st.(unobserved := st.unobserved + 1)
      case _ =>
        var i := Match(st.pending, e, c.window);
        if i == |st.pending| then st
        else
          var epoch := st.pending[i].epoch;
          st.(pending := st.pending[i := st.pending[i].(claimed := true)],
              tallies := if e.kind == Worked then AddServe(st.tallies, epoch, c.quanta) else AddDenial(st.tallies, epoch))
  }

  /** The first event past the current epoch ends the fold. */
  function Fold(st: State, events: seq<Event>, c: Config): State
    decreases |events|
  {
    if events == [] || events[0].epoch > c.current then st
    else Fold(Step(st, events[0], c), events[1..], c)
  }

  function Rank(k: Kind): nat {
    if k == Serve || k == Block then 0 else 1
  }

  /** The engine's own order. It leaves a serve and a block with one fingerprint tied. */
  predicate Before(x: Event, y: Event) {
    if x.epoch != y.epoch then x.epoch < y.epoch
    else if Rank(x.kind) != Rank(y.kind) then Rank(x.kind) < Rank(y.kind)
    else x.own <= y.own
  }

  function Order(): (Event, Event) -> bool {
    (x, y) => Before(x, y)
  }

  // ----- ties do not matter -----

  function Index(k: Kind): nat {
    match k case Serve => 0 case Block => 1 case Worked => 2 case Failed => 3 case Unobserved => 4
  }

  predicate StrictlyBefore(x: Event, y: Event) {
    Before(x, y) && !Before(y, x)
  }

  /** A total order that refines the engine's. */
  predicate Refined(x: Event, y: Event) {
    || StrictlyBefore(x, y)
    || (Before(x, y) && (
          if x.kind != y.kind then Index(x.kind) <= Index(y.kind) else x.ref <= y.ref))
  }

  function RefinedOrder(): (Event, Event) -> bool {
    (x, y) => Refined(x, y)
  }

  lemma RefinedIsTotal()
    ensures TotalPreorder(RefinedOrder())
    ensures forall x, y :: RefinedOrder()(x, y) && RefinedOrder()(y, x) ==> x == y
  {
  }

  predicate Tied(x: Event, y: Event) {
    Before(x, y) && Before(y, x)
  }

  /** Tied events are equal, or a serve and a block. */
  ghost predicate NoClash(events: seq<Event>) {
    forall x, y :: x in events && y in events && Tied(x, y) ==> x == y || (Rank(x.kind) == 0 && x.kind != y.kind)
  }

  lemma Swap(st: State, x: Event, y: Event, rest: seq<Event>, c: Config)
    requires Tied(x, y) && Rank(x.kind) == 0 && x.kind != y.kind
    ensures Fold(st, [x, y] + rest, c) == Fold(st, [y, x] + rest, c)
  {
    assert ([x, y] + rest)[1..] == [y] + rest && ([y] + rest)[1..] == rest;
    assert ([y, x] + rest)[1..] == [x] + rest && ([x] + rest)[1..] == rest;
    assert Step(Step(st, x, c), y, c) == Step(Step(st, y, c), x, c);
  }

  lemma {:induction false} SlideIn(st: State, x: Event, t: seq<Event>, c: Config)
    requires forall y :: y in t ==> Before(x, y)
    requires NoClash([x] + t)
    ensures Fold(st, [x] + t, c) == Fold(st, Insert(RefinedOrder(), x, t), c)
    decreases |t|
  {
    if t == [] || Refined(x, t[0]) {
    } else {
      var y, rest := t[0], t[1..];
      hide Step, Before, Refined;
      assert x in [x] + t && y in [x] + t;
      assert t == [y] + rest && [x] + t == [x, y] + rest;
      Swap(st, x, y, rest, c);
      assert ([y, x] + rest)[1..] == [x] + rest;
      var later := Insert(RefinedOrder(), x, rest);
      assert ([y] + later)[1..] == later;
      if y.epoch <= c.current {
        NoClashWithin([x] + rest, [x] + t);
        SlideIn(Step(st, y, c), x, rest, c);
      }
    }
  }

  lemma NoClashWithin(a: seq<Event>, b: seq<Event>)
    requires NoClash(b) && forall z :: z in a ==> z in b
    ensures NoClash(a)
  {
  }

  lemma {:induction false} Canonical(st: State, a: seq<Event>, c: Config)
    requires Sorted(Order(), a) && NoClash(a)
    ensures Fold(st, a, c) == Fold(st, Sort(RefinedOrder(), a), c)
    decreases |a|
  {
    if a != [] {
      var x, rest := a[0], a[1..];
      assert a == [x] + rest;
      var sorted := Sort(RefinedOrder(), rest);
      InSort(RefinedOrder(), rest);
      forall y | y in sorted ensures Before(x, y) {
        assert y in rest;
        assert Order()(x, y);
      }
      SlideIn(st, x, sorted, c);
      assert ([x] + sorted)[1..] == sorted;
      if x.epoch <= c.current {
        Canonical(Step(st, x, c), rest, c);
      }
    }
  }

  /** Two arrangements of the same events that respect the engine's order resolve alike. */
  lemma ArrangementIrrelevant(a: seq<Event>, b: seq<Event>, c: Config)
    requires Sorted(Order(), a) && Sorted(Order(), b)
    requires multiset(a) == multiset(b) && NoClash(a)
    ensures Fold(START, a, c) == Fold(START, b, c)
  {
    forall x ensures x in a <==> x in b {
      assert x in a <==> x in multiset(a);
    }
    Canonical(START, a, c);
    Canonical(START, b, c);
    RefinedIsTotal();
    SortMultiset(RefinedOrder(), a);
    SortMultiset(RefinedOrder(), b);
    SortSorted(RefinedOrder(), a);
    SortSorted(RefinedOrder(), b);
    SortedUnique(RefinedOrder(), Sort(RefinedOrder(), a), Sort(RefinedOrder(), b));
  }

  // ----- pairing -----

  function Unclaimed(pending: seq<PendingServe>): nat {
    if pending == [] then 0 else (if pending[0].claimed then 0 else 1) + Unclaimed(pending[1..])
  }

  lemma {:induction false} UnclaimedSplit(a: seq<PendingServe>, b: seq<PendingServe>)
    ensures Unclaimed(a + b) == Unclaimed(a) + Unclaimed(b)
  {
    if a == [] {
      assert a + b == b;
    } else {
      assert (a + b)[1..] == a[1..] + b;
      UnclaimedSplit(a[1..], b);
    }
  }

  lemma ClaimOne(pending: seq<PendingServe>, i: nat)
    requires i < |pending| && !pending[i].claimed
    ensures Unclaimed(pending[i := pending[i].(claimed := true)]) == Unclaimed(pending) - 1
  {
    var done := pending[i].(claimed := true);
    assert pending == pending[..i] + ([pending[i]] + pending[i + 1..]);
    assert pending[i := done] == pending[..i] + ([done] + pending[i + 1..]);
    UnclaimedSplit(pending[..i], [pending[i]] + pending[i + 1..]);
    UnclaimedSplit(pending[..i], [done] + pending[i + 1..]);
    UnclaimedSplit([pending[i]], pending[i + 1..]);
    UnclaimedSplit([done], pending[i + 1..]);
  }

  method MatchingServeIndex(pending: seq<PendingServe>, outcome: Event, window: nat) returns (index: int)
    ensures index == if Match(pending, outcome, window) < |pending| then Match(pending, outcome, window) else -1
  {
    var i := 0;
    while i < |pending|
      invariant i <= |pending|
      invariant forall j :: 0 <= j < i ==> !Pairs(pending[j], outcome, window)
    {
      var serve := pending[i];
      if serve.claimed || serve.ref == 0 || serve.ref != outcome.ref {
        i := i + 1;
        continue;
      }
      if outcome.epoch < serve.epoch || outcome.epoch - serve.epoch > window {
        i := i + 1;
        continue;
      }
      return i;
    }
    return -1;
  }

  /** `ordered` is the engine's sorted copy of the events. */
  method ResolvePendingServes(ordered: seq<Event>, c: Config)
    returns (tallies: map<nat, Tally>, voidServes: nat, unobserved: nat)
    ensures var final := Fold(START, ordered, c);
            tallies == final.tallies && unobserved == final.unobserved && voidServes == Unclaimed(final.pending)
  {
    tallies, voidServes, unobserved := map[], 0, 0;
    var pending: seq<PendingServe> := [];
    var i := 0;
    assert ordered[0..] == ordered;
    while i < |ordered|
      invariant i <= |ordered|
      invariant Fold(State(pending, tallies, unobserved), ordered[i..], c) == Fold(START, ordered, c)
    {
      var event := ordered[i];
      assert ordered[i..][0] == event && ordered[i..][1..] == ordered[i + 1..];
      if event.epoch > c.current {
        break;
      }
      i := i + 1;
      if event.epoch < c.created {
        continue;
      }
      match event.kind
      case Serve =>
        pending := pending + [PendingServe(event.epoch, event.ref, false)];
        tallies := MarkActivity(tallies, event.epoch);
      case Unobserved => unobserved := unobserved + 1;
      case Block => tallies := AddDenial(tallies, event.epoch);
      case _ =>
        var index := MatchingServeIndex(pending, event, c.window);
        if index >= 0 {
          var epoch := pending[index].epoch;
          pending := pending[index := pending[index].(claimed := true)];
          if event.kind == Worked {
            tallies := AddServe(tallies, epoch, c.quanta);
          } else {
            tallies := AddDenial(tallies, epoch);
          }
        }
    }
    var j := 0;
    while j < |pending|
      invariant j <= |pending| && voidServes == Unclaimed(pending[..j])
    {
      assert pending[..j + 1] == pending[..j] + [pending[j]];
      UnclaimedSplit(pending[..j], [pending[j]]);
      if !pending[j].claimed {
        voidServes := voidServes + 1;
      }
      j := j + 1;
    }
    assert pending[..j] == pending;
  }

  // ----- conservation -----

  predicate InRange(e: Event, c: Config) {
    c.created <= e.epoch
  }

  /** The serves among the folded events, and the outcomes that claimed one. */
  function Served(events: seq<Event>, c: Config): nat
    decreases |events|
  {
    if events == [] || events[0].epoch > c.current then 0
    else (if InRange(events[0], c) && events[0].kind == Serve then 1 else 0) + Served(events[1..], c)
  }

  function Claims(st: State, events: seq<Event>, c: Config): nat
    decreases |events|
  {
    if events == [] || events[0].epoch > c.current then 0
    else
      var e := events[0];
      var claims := InRange(e, c) && (e.kind == Worked || e.kind == Failed) && Match(st.pending, e, c.window) < |st.pending|;
      (if claims then 1 else 0) + Claims(Step(st, e, c), events[1..], c)
  }

  /** Every serve is claimed by exactly one outcome or ends void. */
  lemma {:induction false} ServesConserved(st: State, events: seq<Event>, c: Config)
    ensures Unclaimed(Fold(st, events, c).pending) + Claims(st, events, c) == Unclaimed(st.pending) + Served(events, c)
    decreases |events|
  {
    if events == [] || events[0].epoch > c.current {
    } else {
      var e := events[0];
      ServesConserved(Step(st, e, c), events[1..], c);
      if InRange(e, c) {
        if e.kind == Serve {
          UnclaimedSplit(st.pending, [PendingServe(e.epoch, e.ref, false)]);
        } else if e.kind == Worked || e.kind == Failed {
          var i := Match(st.pending, e, c.window);
          if i < |st.pending| {
            ClaimOne(st.pending, i);
          }
        }
      }
    }
  }
}
