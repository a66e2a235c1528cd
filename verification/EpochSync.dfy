/** Copying lifecycle states from the chain into the search index (wevibe-hub/internal/chain/sync.go). */
module EpochSync {
  import opened ChunkedQuery
  import opened Wrappers

  /** Texts (content ids and lifecycle states) are only compared. */
  type Text = nat

  type Org = nat

  /** Hexadecimal both ways. Decoding takes either case, encoding gives lower case. */
  datatype Hex = Hex(decode: Text -> Option<Hash>, encode: Hash -> Text) {

    ghost predicate Valid() {
      forall h: Hash :: decode(encode(h)) == Some(h)
    }

    /** A content id as the hub itself would write it. */
    predicate Canonical(cid: Text) {
      decode(cid).Some? && encode(decode(cid).value) == cid
    }
  }

  /** `normalize` trims and upper-cases; `lifecycle` is the chain state's name, trimmed and upper-cased. */
  datatype Names = Names(normalize: Text -> Text, lifecycle: int -> Text) {

    ghost predicate Valid() {
      forall s: int :: normalize(lifecycle(s)) == lifecycle(s)
    }
  }

  /** One org's memories in the index: content id to lifecycle state as stored. */
  type Index = map<Text, Text>

  // ----- what a sync should do -----

  predicate KnownAs(hex: Hex, lookup: Lookup, cid: Text) {
    hex.Canonical(cid) && lookup(hex.decode(cid).value).Some?
  }

  function Goal(names: Names, hex: Hex, lookup: Lookup, cid: Text): Text
    requires KnownAs(hex, lookup, cid)
  {
    names.lifecycle(lookup(hex.decode(cid).value).value)
  }

  /** The state the sync leaves under a content id. */
  function Settled(names: Names, hex: Hex, lookup: Lookup, cid: Text, was: Text): Text {
    if KnownAs(hex, lookup, cid) && names.normalize(was) != Goal(names, hex, lookup, cid)
    then Goal(names, hex, lookup, cid) else was
  }

  function Synced(names: Names, hex: Hex, lookup: Lookup, index: Index): Index {
    map cid | cid in index :: Settled(names, hex, lookup, cid, index[cid])
  }

  /** Every memory the chain knows under a canonical id shows the chain's lifecycle. */
  ghost predicate InStep(names: Names, hex: Hex, lookup: Lookup, index: Index) {
    forall cid :: cid in index && KnownAs(hex, lookup, cid) ==> names.normalize(index[cid]) == Goal(names, hex, lookup, cid)
  }

  lemma GoalIsNormal(names: Names, hex: Hex, lookup: Lookup, cid: Text)
    requires names.Valid() && KnownAs(hex, lookup, cid)
    ensures names.normalize(Goal(names, hex, lookup, cid)) == Goal(names, hex, lookup, cid)
  {
    var state := lookup(hex.decode(cid).value).value;
    assert names.normalize(names.lifecycle(state)) == names.lifecycle(state);
  }

  /** A synced index is in step, and syncing an index changes nothing exactly when it is in step. */
  lemma SyncedIsInStep(names: Names, hex: Hex, lookup: Lookup, index: Index)
    requires names.Valid()
    ensures InStep(names, hex, lookup, Synced(names, hex, lookup, index))
    ensures Synced(names, hex, lookup, index) == index <==> InStep(names, hex, lookup, index)
  {
    forall cid | cid in index && KnownAs(hex, lookup, cid)
      ensures names.normalize(Goal(names, hex, lookup, cid)) == Goal(names, hex, lookup, cid)
    {
      GoalIsNormal(names, hex, lookup, cid);
    }
    if Synced(names, hex, lookup, index) == index {
      forall cid | cid in index && KnownAs(hex, lookup, cid)
        ensures names.normalize(index[cid]) == Goal(names, hex, lookup, cid)
      {
        assert Synced(names, hex, lookup, index)[cid] == index[cid];
        GoalIsNormal(names, hex, lookup, cid);
      }
    }
  }

  /** The chain knows the memory the id decodes to, whatever the id's spelling. */
  predicate Decodes(hex: Hex, lookup: Lookup, cid: Text) {
    hex.decode(cid).Some? && lookup(hex.decode(cid).value).Some?
  }

  predicate Shows(names: Names, hex: Hex, lookup: Lookup, state: Text, cid: Text)
    requires Decodes(hex, lookup, cid)
  {
    names.normalize(state) == names.lifecycle(lookup(hex.decode(cid).value).value)
  }

  /** After a sync, an id whose memory the chain knows shows the chain's lifecycle exactly when its spelling is
      canonical or it already showed it: other spellings are never touched. */
  lemma ShownExactly(names: Names, hex: Hex, lookup: Lookup, index: Index, cid: Text)
    requires names.Valid() && cid in index && Decodes(hex, lookup, cid)
    ensures Shows(names, hex, lookup, Synced(names, hex, lookup, index)[cid], cid) <==>
            hex.Canonical(cid) || Shows(names, hex, lookup, index[cid], cid)
    ensures !hex.Canonical(cid) ==> Synced(names, hex, lookup, index)[cid] == index[cid]
  {
    if hex.Canonical(cid) {
      GoalIsNormal(names, hex, lookup, cid);
    }
  }

  // ----- the loops -----

  /** The hashes of the ids that decode, in order. */
  function Hashes(hex: Hex, cids: seq<Text>): seq<Hash> {
    if cids == [] then []
    else if hex.decode(cids[0]).Some? then [hex.decode(cids[0]).value] + Hashes(hex, cids[1..])
    else Hashes(hex, cids[1..])
  }

  lemma {:induction false} HashesFrom(hex: Hex, cids: seq<Text>, cid: Text)
    requires cid in cids && hex.decode(cid).Some?
    ensures hex.decode(cid).value in Hashes(hex, cids)
  {
    if cids[0] != cid {
      HashesFrom(hex, cids[1..], cid);
    }
  }

  method DecodeAll(hex: Hex, cids: seq<Text>) returns (hashes: seq<Hash>)
    ensures hashes == Hashes(hex, cids)
  {
    hashes := [];
    var i := 0;
    assert cids[0..] == cids;
    while i < |cids|
      invariant i <= |cids| && hashes + Hashes(hex, cids[i..]) == Hashes(hex, cids)
    {
      assert cids[i..][0] == cids[i] && cids[i..][1..] == cids[i + 1..];
      var decoded := hex.decode(cids[i]);
      if decoded.Some? {
        assert hashes + ([decoded.value] + Hashes(hex, cids[i + 1..]))
            == (hashes + [decoded.value]) + Hashes(hex, cids[i + 1..]);
        hashes := hashes + [decoded.value];
      }
      i := i + 1;
    }
  }

  /** The index between two updates: the ids in `done` are settled, the others as they were. */
  ghost predicate Partly(names: Names, hex: Hex, lookup: Lookup, was: Index, now: Index, done: set<Text>) {
    && now.Keys == was.Keys
    && forall cid :: cid in was ==>
         now[cid] == if cid in done then Settled(names, hex, lookup, cid, was[cid]) else was[cid]
  }

  /** A scroll of the index lists each of its ids. */
  ghost predicate Lists(index: Index, cids: seq<Text>) {
    forall cid :: cid in index <==> cid in cids
  }

  /** Each answered memory updates the index, or stops the sync when an update fails. `stored` is the
      index as it was scrolled, `current` as it is now. */
  method ApplyAnswers(names: Names, hex: Hex, lookup: Lookup, stored: Index, current: Index, answers: seq<Memory>,
                      refuses: Text -> bool, ghost done: set<Text>)
    returns (ok: bool, index: Index, updated: nat, ghost more: set<Text>)
    requires hex.Valid() && Partly(names, hex, lookup, stored, current, done)
    requires forall m :: m in answers ==> lookup(m.hash) == Some(m.state)
    ensures Partly(names, hex, lookup, stored, index, more)
    ensures ok ==> more >= done && forall m :: m in answers ==> hex.encode(m.hash) in more
    ensures InStep(names, hex, lookup, stored) ==> updated == 0
  {
    hide Synced;
    index, more, updated := current, done, 0;
    var i := 0;
    while i < |answers|
      invariant i <= |answers| && more >= done
      invariant Partly(names, hex, lookup, stored, index, more)
      invariant forall j :: 0 <= j < i ==> hex.encode(answers[j].hash) in more
      invariant InStep(names, hex, lookup, stored) ==> updated == 0
    {
      var m := answers[i];
      assert m in answers;
      var cid := hex.encode(m.hash);
      assert KnownAs(hex, lookup, cid) && Goal(names, hex, lookup, cid) == names.lifecycle(m.state);
      if cid in stored {
        var chainLifecycle := names.lifecycle(m.state);
        if names.normalize(stored[cid]) != chainLifecycle {
          if refuses(cid) {
            return false, index, updated, more;
          }
          index := index[cid := chainLifecycle];
          updated := updated + 1;
        }
      }
      more := more + {cid};
      i := i + 1;
    }
    ok := true;
  }

  /** One batch of ids; ids that do not decode are skipped. */
  method SyncBatch(names: Names, hex: Hex, lookup: Lookup, stored: Index, current: Index, batch: seq<Text>,
                   fails: nat -> bool, refuses: Text -> bool, ghost done: set<Text>)
    returns (ok: bool, index: Index, updated: nat, ghost more: set<Text>)
    requires hex.Valid() && Partly(names, hex, lookup, stored, current, done)
    ensures Partly(names, hex, lookup, stored, index, more)
    ensures ok ==> more >= done && Covers(hex, lookup, batch, more)
    ensures InStep(names, hex, lookup, stored) ==> updated == 0
  {
    hide Partly, InStep, KnownAs;
    index, more, updated := current, done, 0;
    var hashes := DecodeAll(hex, batch);
    if |hashes| == 0 {
      NothingDecodes(hex, lookup, batch, done);
      return true, index, updated, more;
    }
    var fetched, answers, notFound, requests := GetMemoriesBatch(lookup, fails, hashes);
    if !fetched {
      return false, index, updated, more;
    }
    forall m | m in answers ensures lookup(m.hash) == Some(m.state) {
      FoundFrom(lookup, hashes, m);
    }
    ok, index, updated, more := ApplyAnswers(names, hex, lookup, stored, current, answers, refuses, done);
    if ok {
      BatchDone(hex, lookup, batch, answers, more);
    }
  }

  /** Which requests of the batch that starts at `start` fail. */
  function FailsAt(fails: (nat, nat) -> bool, start: nat): nat -> bool {
    (i: nat) => fails(start, i)
  }

  /** One org: its ids in batches of fifty. `cids` is the scrolled list. On failure every memory is either
      as it was or as it should be. */
  method SyncOrg(names: Names, hex: Hex, lookup: Lookup, stored: Index, cids: seq<Text>, fails: (nat, nat) -> bool,
                 refuses: Text -> bool)
    returns (ok: bool, index: Index, updated: nat, ghost done: set<Text>)
    requires hex.Valid() && Lists(stored, cids)
    ensures ok ==> index == Synced(names, hex, lookup, stored)
    ensures Partly(names, hex, lookup, stored, index, done)
    ensures InStep(names, hex, lookup, stored) ==> updated == 0
  {
    index, updated, done := stored, 0, {};
    var start: nat := 0;
    hide InStep, KnownAs, Synced, Covers, Lists;
    while start < |cids|
      invariant Partly(names, hex, lookup, stored, index, done)
      invariant Covers(hex, lookup, cids[..Min(start, |cids|)], done)
      invariant InStep(names, hex, lookup, stored) ==> updated == 0
    {
      hide Partly;
      var end := Min(start + 50, |cids|);
      var batch := cids[start..end];
      var count;
      ok, index, count, done := SyncBatch(names, hex, lookup, stored, index, batch, FailsAt(fails, start), refuses, done);
      updated := updated + count;
      if !ok {
        return;
      }
      assert cids[..end] == cids[..start] + batch;
      start := start + 50;
    }
    assert cids[..Min(start, |cids|)] == cids;
    AllDone(names, hex, lookup, stored, index, cids, done);
    ok := true;
  }

  /** Every known id of the list is done. */
  ghost predicate Covers(hex: Hex, lookup: Lookup, cids: seq<Text>, done: set<Text>) {
    forall j :: 0 <= j < |cids| && KnownAs(hex, lookup, cids[j]) ==> cids[j] in done
  }

  lemma BatchDone(hex: Hex, lookup: Lookup, batch: seq<Text>, answers: seq<Memory>, done: set<Text>)
    requires answers == Found(lookup, Hashes(hex, batch))
    requires forall m :: m in answers ==> hex.encode(m.hash) in done
    ensures Covers(hex, lookup, batch, done)
  {
    forall j | 0 <= j < |batch| && KnownAs(hex, lookup, batch[j]) ensures batch[j] in done {
      var h := hex.decode(batch[j]).value;
      HashesFrom(hex, batch, batch[j]);
      FoundFrom(lookup, Hashes(hex, batch), Memory(h, lookup(h).value));
      assert Memory(h, lookup(h).value) in answers;
    }
  }

  lemma NothingDecodes(hex: Hex, lookup: Lookup, batch: seq<Text>, done: set<Text>)
    requires Hashes(hex, batch) == []
    ensures Covers(hex, lookup, batch, done)
  {
    forall j | 0 <= j < |batch| ensures !KnownAs(hex, lookup, batch[j]) {
      HashesNone(hex, batch, j);
    }
  }

  lemma {:induction false} HashesNone(hex: Hex, batch: seq<Text>, j: nat)
    requires Hashes(hex, batch) == [] && j < |batch|
    ensures hex.decode(batch[j]).None?
  {
    if j > 0 {
      HashesNone(hex, batch[1..], j - 1);
    }
  }

  lemma AllDone(names: Names, hex: Hex, lookup: Lookup, was: Index, now: Index, cids: seq<Text>, done: set<Text>)
    requires Partly(names, hex, lookup, was, now, done)
    requires Lists(was, cids)
    requires Covers(hex, lookup, cids, done)
    ensures now == Synced(names, hex, lookup, was)
  {
    forall cid | cid in was ensures now[cid] == Synced(names, hex, lookup, was)[cid] {
      var j :| 0 <= j < |cids| && cids[j] == cid;
    }
  }

  /** All orgs in turn; the first failure ends the sync. After a success every org's memories are synced,
      and a second sync against the same chain updates nothing. */
  method SyncEpochData(names: Names, hex: Hex, chain: Org -> Lookup, orgs: seq<Org>, stored: map<Org, Index>,
                       scrolls: Org -> seq<Text>, scrollFails: Org -> bool, fails: (nat, nat) -> bool,
                       refuses: Text -> bool)
    returns (ok: bool, index: map<Org, Index>, updated: nat)
    requires hex.Valid() && forall i :: 0 <= i < |orgs| ==> orgs[i] in stored
    requires forall o :: o in stored ==> Lists(stored[o], scrolls(o))
    requires forall i, j :: 0 <= i < j < |orgs| ==> orgs[i] != orgs[j]
    ensures index.Keys == stored.Keys
    ensures ok ==> forall o :: o in orgs ==> index[o] == Synced(names, hex, chain(o), stored[o])
    ensures forall o :: o in stored && o !in orgs ==> index[o] == stored[o]
    ensures (forall o :: o in orgs ==> InStep(names, hex, chain(o), stored[o])) ==> updated == 0
  {
    hide Synced, InStep, Lists, Partly;
    index, updated := stored, 0;
    var i := 0;
    while i < |orgs|
      invariant i <= |orgs| && index.Keys == stored.Keys
      invariant forall j :: 0 <= j < i ==> index[orgs[j]] == Synced(names, hex, chain(orgs[j]), stored[orgs[j]])
      invariant forall o :: o in stored && o !in orgs[..i] ==> index[o] == stored[o]
      invariant (forall o :: o in orgs ==> InStep(names, hex, chain(o), stored[o])) ==> updated == 0
    {
      var org := orgs[i];
      if scrollFails(org) {
        return false, index, updated;
      }
      assert org !in orgs[..i] && org in orgs;
      var synced, memories, count;
      ghost var done;
      synced, memories, count, done := SyncOrg(names, hex, chain(org), index[org], scrolls(org), fails, refuses);
      index := index[org := memories];
      updated := updated + count;
      if !synced {
        return false, index, updated;
      }
      i := i + 1;
    }
    ok := true;
  }

  /** So running it again, right away and against the same chain, finds nothing to update. */
  lemma SecondSyncIdle(names: Names, hex: Hex, chain: Org -> Lookup, orgs: seq<Org>, stored: map<Org, Index>,
                       index: map<Org, Index>)
    requires names.Valid() && forall o :: o in orgs ==> o in stored && o in index
    requires forall o :: o in orgs ==> index[o] == Synced(names, hex, chain(o), stored[o])
    ensures forall o :: o in orgs ==> InStep(names, hex, chain(o), index[o])
    ensures forall o :: o in orgs ==> Synced(names, hex, chain(o), index[o]) == index[o]
  {
    forall o | o in orgs ensures InStep(names, hex, chain(o), index[o])
      ensures Synced(names, hex, chain(o), index[o]) == index[o]
    {
      SyncedIsInStep(names, hex, chain(o), stored[o]);
      SyncedIsInStep(names, hex, chain(o), index[o]);
    }
  }
}
