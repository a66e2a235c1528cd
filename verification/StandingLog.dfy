/** The recall-event log as the standing projection reads it
    (wevibe-hub/internal/chain/standing_projection.go). */
module StandingLog {
  import opened StableSort
  import Engine = StandingEngine
  import opened Wrappers

  /** Org ids, memory ids and fingerprints are numbers that compare as their texts do; 0 is the empty text. */
  type Id = nat

  datatype Key = Key(org: Id, memory: Id)

  datatype Status = Pending | Submitted | Failed

  datatype Resolution = Worked | DidntWork | Unobserved

  datatype ServeRow = ServeRow(org: Id, memory: Id, epoch: int, denial: bool, fingerprint: Id, status: Status)

  datatype OutcomeRow =
    OutcomeRow(org: Id, memory: Id, epoch: int, resolution: Resolution, serveRef: Id, fingerprint: Id, status: Status)

  datatype Event = Event(key: Key, epoch: int, kind: Engine.Kind, ref: Id, fingerprint: Id, gated: bool)

  /** The fingerprints the chain lists for an org and epoch, or no answer. */
  type Chain = (Id, int) -> Option<set<Id>>

  function OfServe(r: ServeRow): Event {
    Event(Key(r.org, r.memory), r.epoch, if r.denial then Engine.Block else Engine.Serve, r.fingerprint, r.fingerprint,
          false)
  }

  function OfOutcome(r: OutcomeRow): Event {
    var kind := match r.resolution
      case Worked => Engine.Worked
      case DidntWork => Engine.Failed
      case Unobserved => Engine.Unobserved;
    Event(Key(r.org, r.memory), r.epoch, kind, r.serveRef, r.fingerprint, true)
  }

  function ServeEvents(rows: seq<ServeRow>): seq<Event> {
    if rows == [] then []
    else if rows[0].status == Submitted then [OfServe(rows[0])] + ServeEvents(rows[1..])
    else ServeEvents(rows[1..])
  }

  function OutcomeEvents(rows: seq<OutcomeRow>): seq<Event> {
    if rows == [] then []
    else if rows[0].status == Submitted then [OfOutcome(rows[0])] + OutcomeEvents(rows[1..])
    else OutcomeEvents(rows[1..])
  }

  // ----- the query -----

  predicate Precedes(x: Event, y: Event) {
    if x.key.org != y.key.org then x.key.org < y.key.org
    else if x.key.memory != y.key.memory then x.key.memory < y.key.memory
    else if x.epoch != y.epoch then x.epoch < y.epoch
    else x.fingerprint <= y.fingerprint
  }

  function QueryOrder(): (Event, Event) -> bool {
    (x, y) => Precedes(x, y)
  }

  /** The query's `WHERE`: an empty argument matches everything. */
  function Matching(org: Id, memory: Id): Event -> bool {
    (e: Event) => (org == 0 || e.key.org == org) && (memory == 0 || e.key.memory == memory)
  }

  function HasKey(key: Key): Event -> bool {
    (e: Event) => e.key == key
  }

  function Query(serves: seq<ServeRow>, outcomes: seq<OutcomeRow>, org: Id, memory: Id): seq<Event> {
    Sort(QueryOrder(), Filter(Matching(org, memory), ServeEvents(serves) + OutcomeEvents(outcomes)))
  }

  // ----- the chain filter -----

  predicate Kept(chain: Chain, e: Event) {
    !e.gated || (chain(e.key.org, e.epoch).Some? && e.fingerprint in chain(e.key.org, e.epoch).value)
  }

  function KeptBy(chain: Chain): Event -> bool {
    (e: Event) => Kept(chain, e)
  }

  /** Reading this event does not fail. */
  predicate Readable(chain: Chain, e: Event) {
    e.epoch >= 0 && (e.gated ==> chain(e.key.org, e.epoch).Some?)
  }

  ghost predicate AllReadable(chain: Chain, events: seq<Event>) {
    forall e :: e in events ==> Readable(chain, e)
  }

  /** The events of one memory, or of all memories when both arguments are empty. */
  ghost function Load(serves: seq<ServeRow>, outcomes: seq<OutcomeRow>, chain: Chain, org: Id, memory: Id)
    : Option<seq<Event>>
  {
    var events := Query(serves, outcomes, org, memory);
    if AllReadable(chain, events) then Some(Filter(KeptBy(chain), events)) else None
  }

  // ----- one memory's events are its share of all events -----

  ghost predicate Logged(serves: seq<ServeRow>, outcomes: seq<OutcomeRow>, e: Event) {
    || (exists r :: r in serves && r.status == Submitted && e == OfServe(r))
    || (exists r :: r in outcomes && r.status == Submitted && e == OfOutcome(r))
  }

  /** Asking for one memory is taking its share of all events exactly when every submitted event the question
      matches, empty ids matching everything, is that memory's. */
  lemma QueryExactly(serves: seq<ServeRow>, outcomes: seq<OutcomeRow>, key: Key)
    ensures Query(serves, outcomes, key.org, key.memory) == Filter(HasKey(key), Query(serves, outcomes, 0, 0)) <==>
            forall e :: Logged(serves, outcomes, e) && Matching(key.org, key.memory)(e) ==> e.key == key
  {
    var all := ServeEvents(serves) + OutcomeEvents(outcomes);
    forall e ensures e in all <==> Logged(serves, outcomes, e) {
      ServeEventsFrom(serves, e);
      OutcomeEventsFrom(outcomes, e);
    }
    FilterAll(Matching(0, 0), all);
    InSort(QueryOrder(), Filter(Matching(key.org, key.memory), all));
    InFilter(Matching(key.org, key.memory), all);
    InFilter(HasKey(key), Query(serves, outcomes, 0, 0));
    if forall e :: Logged(serves, outcomes, e) && Matching(key.org, key.memory)(e) ==> e.key == key {
      FilterSame(Matching(key.org, key.memory), HasKey(key), all);
      FilterSort(QueryOrder(), HasKey(key), all);
    }
  }

  /** A load whose whole log can be read is the part of the whole load it asks for. */
  lemma LoadAsked(serves: seq<ServeRow>, outcomes: seq<OutcomeRow>, chain: Chain, org: Id, memory: Id)
    requires Load(serves, outcomes, chain, 0, 0).Some?
    ensures Load(serves, outcomes, chain, org, memory)
         == Some(Filter(Matching(org, memory), Load(serves, outcomes, chain, 0, 0).value))
  {
    hide Matching, Readable, Kept, Precedes;
    var asked, logged := Matching(org, memory), ServeEvents(serves) + OutcomeEvents(outcomes);
    var all := Query(serves, outcomes, 0, 0);
    MatchAll(logged);
    OrderTotal();
    FilterSort(QueryOrder(), asked, logged);
    assert Query(serves, outcomes, org, memory) == Filter(asked, all);
    InFilter(asked, all);
    FilterCommutes(KeptBy(chain), asked, all);
  }

  lemma MatchAll(events: seq<Event>)
    ensures Filter(Matching(0, 0), events) == events
  {
    FilterAll(Matching(0, 0), events);
  }

  lemma OrderTotal()
    ensures TotalPreorder(QueryOrder())
  {
  }

  lemma Loaded(serves: seq<ServeRow>, outcomes: seq<OutcomeRow>, chain: Chain, e: Event)
    requires Load(serves, outcomes, chain, 0, 0).Some?
    ensures e in Load(serves, outcomes, chain, 0, 0).value <==> Logged(serves, outcomes, e) && Kept(chain, e)
  {
    InFilter(KeptBy(chain), Query(serves, outcomes, 0, 0));
    QueryFrom(serves, outcomes, 0, 0, e);
    ServeEventsFrom(serves, e);
    OutcomeEventsFrom(outcomes, e);
  }

  /** The same for what the chain filter lets through: filtering the whole log and then taking one memory's
      group is loading that memory alone, with the same events in the same order, exactly when no event of
      another memory that the chain keeps matches the question. */
  lemma LoadExactly(serves: seq<ServeRow>, outcomes: seq<OutcomeRow>, chain: Chain, key: Key)
    requires Load(serves, outcomes, chain, 0, 0).Some?
    ensures (Load(serves, outcomes, chain, key.org, key.memory)
             == Some(Filter(HasKey(key), Load(serves, outcomes, chain, 0, 0).value))) <==>
            forall e :: Logged(serves, outcomes, e) && Matching(key.org, key.memory)(e) && Kept(chain, e) ==>
              e.key == key
  {
    hide Load, Logged, Kept;
    var asked, all := Matching(key.org, key.memory), Load(serves, outcomes, chain, 0, 0).value;
    LoadAsked(serves, outcomes, chain, key.org, key.memory);
    forall e ensures e in all <==> Logged(serves, outcomes, e) && Kept(chain, e) {
      Loaded(serves, outcomes, chain, e);
    }
    InFilter(asked, all);
    InFilter(HasKey(key), all);
    if forall e :: Logged(serves, outcomes, e) && asked(e) && Kept(chain, e) ==> e.key == key {
      FilterSame(asked, HasKey(key), all);
    }
  }

  /** So it is for every memory with a proper id. */
  lemma LoadOne(serves: seq<ServeRow>, outcomes: seq<OutcomeRow>, chain: Chain, key: Key)
    requires key.org != 0 && key.memory != 0 && Load(serves, outcomes, chain, 0, 0).Some?
    ensures Load(serves, outcomes, chain, key.org, key.memory)
         == Some(Filter(HasKey(key), Load(serves, outcomes, chain, 0, 0).value))
  {
    LoadExactly(serves, outcomes, chain, key);
  }

  ghost predicate Named(serves: seq<ServeRow>, outcomes: seq<OutcomeRow>) {
    && (forall r :: r in serves ==> r.org != 0 && r.memory != 0)
    && (forall r :: r in outcomes ==> r.org != 0 && r.memory != 0)
  }

  lemma {:induction false} ServeEventsFrom(rows: seq<ServeRow>, e: Event)
    ensures e in ServeEvents(rows) <==> exists r :: r in rows && r.status == Submitted && e == OfServe(r)
  {
    if rows != [] {
      ServeEventsFrom(rows[1..], e);
    }
  }

  lemma {:induction false} OutcomeEventsFrom(rows: seq<OutcomeRow>, e: Event)
    ensures e in OutcomeEvents(rows) <==> exists r :: r in rows && r.status == Submitted && e == OfOutcome(r)
  {
    if rows != [] {
      OutcomeEventsFrom(rows[1..], e);
    }
  }

  lemma QueryFrom(serves: seq<ServeRow>, outcomes: seq<OutcomeRow>, org: Id, memory: Id, e: Event)
    ensures e in Query(serves, outcomes, org, memory) <==>
            Matching(org, memory)(e) && (e in ServeEvents(serves) || e in OutcomeEvents(outcomes))
  {
    InSort(QueryOrder(), Filter(Matching(org, memory), ServeEvents(serves) + OutcomeEvents(outcomes)));
    InFilter(Matching(org, memory), ServeEvents(serves) + OutcomeEvents(outcomes));
  }

  lemma WholeLoadFailsExactly(serves: seq<ServeRow>, outcomes: seq<OutcomeRow>, chain: Chain)
    requires Named(serves, outcomes)
    ensures Load(serves, outcomes, chain, 0, 0).None? <==>
            exists key: Key :: key.org != 0 && key.memory != 0 && Load(serves, outcomes, chain, key.org, key.memory).None?
  {
    var all := Query(serves, outcomes, 0, 0);
    if Load(serves, outcomes, chain, 0, 0).Some? {
      forall key: Key | key.org != 0 && key.memory != 0
        ensures Load(serves, outcomes, chain, key.org, key.memory).Some?
      {
        LoadOne(serves, outcomes, chain, key);
      }
    } else {
      var e :| e in all && !Readable(chain, e);
      QueryFrom(serves, outcomes, 0, 0, e);
      ServeEventsFrom(serves, e);
      OutcomeEventsFrom(outcomes, e);
      QueryExactly(serves, outcomes, e.key);
      InFilter(HasKey(e.key), all);
      assert Load(serves, outcomes, chain, e.key.org, e.key.memory).None?;
    }
  }

  /** With an empty id the one-memory question brings in any other memory's event it matches. */
  lemma EmptyIdReadsAll(serves: seq<ServeRow>, outcomes: seq<OutcomeRow>, key: Key, e: Event)
    requires Logged(serves, outcomes, e) && e.key != key
    requires (key.org == 0 || e.key.org == key.org) && (key.memory == 0 || e.key.memory == key.memory)
    ensures e in Query(serves, outcomes, key.org, key.memory)
    ensures e !in Filter(HasKey(key), Query(serves, outcomes, 0, 0))
  {
    ServeEventsFrom(serves, e);
    OutcomeEventsFrom(outcomes, e);
    QueryFrom(serves, outcomes, key.org, key.memory, e);
    InFilter(HasKey(key), Query(serves, outcomes, 0, 0));
  }
}
