/** Crashes over a hub's whole life, any number in each block, each followed by a replay of its block
    (wevibe-hub/internal/chain/watcher.go). */
module OrgRecovery {
  import opened OrgLog
  import opened OrgReplay
  import opened OrgConvergence
  import opened OrgOwnership

  /** A crash after `at` messages of the block and `cut` statements of the next. */
  datatype Crash = Crash(at: nat, cut: nat)

  ghost function AfterCrashes(db: Db, log: seq<Msg>, crashes: seq<Crash>): Db
    requires InBlock(log, crashes)
    decreases |crashes|
  {
    if crashes == [] then db
    else AfterCrashes(Crashed(db, log, crashes[0].at, crashes[0].cut), log, crashes[1..])
  }

  ghost predicate InBlock(log: seq<Msg>, crashes: seq<Crash>) {
    forall i :: 0 <= i < |crashes| ==> crashes[i].at < |log|
  }

  /** No crash separates a member's insertion from the approval of the request it came from. */
  ghost predicate Untorn(db: Db, log: seq<Msg>, crashes: seq<Crash>)
    requires InBlock(log, crashes)
    decreases |crashes|
  {
    crashes == [] || (
      && !Torn(db, log, crashes[0].at, crashes[0].cut)
      && Untorn(Crashed(db, log, crashes[0].at, crashes[0].cut), log, crashes[1..]))
  }

  /** No crash changes which transfer promotes a row last, or the leader an org is named last, from what it
      was in the pass the crash cut short. */
  ghost predicate Undisturbed(db: Db, log: seq<Msg>, crashes: seq<Crash>)
    requires InBlock(log, crashes)
    decreases |crashes|
  {
    crashes == [] || (
      && SamePromotions(db, Crashed(db, log, crashes[0].at, crashes[0].cut), log)
      && Undisturbed(Crashed(db, log, crashes[0].at, crashes[0].cut), log, crashes[1..]))
  }

  /** Wherever in the list of crashes the last one is, completing the block then ends where one pass ends. */
  ghost predicate EachEnds(db: Db, log: seq<Msg>, crashes: seq<Crash>)
    requires InBlock(log, crashes)
  {
    forall m :: 0 <= m <= |crashes| ==> Run(AfterCrashes(db, log, crashes[..m]), log) == Run(db, log)
  }

  lemma {:induction false} CrashesConverge(db: Db, log: seq<Msg>, crashes: seq<Crash>)
    requires WalletsUnique(db) && InBlock(log, crashes) && Untorn(db, log, crashes)
    ensures EachEnds(db, log, crashes) <==> Undisturbed(db, log, crashes)
    decreases |crashes|
  {
    hide Run, Crashed, SamePromotions;
    if crashes != [] {
      var k, cut, rest := crashes[0].at, crashes[0].cut, crashes[1..];
      var t := Crashed(db, log, k, cut);
      CrashedUnique(db, log, k, cut);
      CrashesConverge(t, log, rest);
      ConvergesExactly(db, log, k, cut);
      if EachEnds(db, log, crashes) {
        assert crashes[..1][0] == crashes[0] && crashes[..1][1..] == [];
        assert Run(AfterCrashes(db, log, crashes[..1]), log) == Run(db, log);
      }
      if SamePromotions(db, t, log) {
        forall m | 1 <= m <= |crashes|
          ensures AfterCrashes(db, log, crashes[..m]) == AfterCrashes(t, log, rest[..m - 1])
        {
          assert crashes[..m][0] == crashes[0] && crashes[..m][1..] == rest[..m - 1];
        }
        if EachEnds(db, log, crashes) {
          forall m | 0 <= m <= |rest| ensures Run(AfterCrashes(t, log, rest[..m]), log) == Run(t, log) {
            assert AfterCrashes(db, log, crashes[..m + 1]) == AfterCrashes(t, log, rest[..m]);
          }
        }
      }
    }
  }

  /** A hub's life: block after block, each attempted as often as it crashes and then completed. */
  datatype Attempted = Attempted(log: seq<Msg>, crashes: seq<Crash>)

  ghost predicate WellFormed(life: seq<Attempted>) {
    forall i :: 0 <= i < |life| ==> InBlock(life[i].log, life[i].crashes)
  }

  ghost function Live(db: Db, life: seq<Attempted>): Db
    requires WellFormed(life)
    decreases |life|
  {
    if life == [] then db
    else Live(Run(AfterCrashes(db, life[0].log, life[0].crashes), life[0].log), life[1..])
  }

  function Messages(life: seq<Attempted>): seq<Msg> {
    if life == [] then [] else life[0].log + Messages(life[1..])
  }

  /** Along the uninterrupted pass, no block has a torn crash or one that disturbs its promotions. */
  ghost predicate Harmless(db: Db, life: seq<Attempted>)
    requires WellFormed(life)
    decreases |life|
  {
    life == [] || (
      && Untorn(db, life[0].log, life[0].crashes)
      && Undisturbed(db, life[0].log, life[0].crashes)
      && Harmless(Run(db, life[0].log), life[1..]))
  }

  lemma {:induction false} LifeConverges(db: Db, life: seq<Attempted>)
    requires WalletsUnique(db) && WellFormed(life) && Harmless(db, life)
    ensures Live(db, life) == Run(db, Messages(life))
    decreases |life|
  {
    if life != [] {
      var log, crashes := life[0].log, life[0].crashes;
      CrashesConverge(db, log, crashes);
      assert crashes[..|crashes|] == crashes;
      RunKeepsUnique(db, log);
      LifeConverges(Run(db, log), life[1..]);
      RunSplit(db, log, Messages(life[1..]));
    }
  }

  // ----- where every wallet has one owner -----

  /** What makes one crash harmless makes the next one harmless too. */
  lemma CrashKeepsOrder(db: Db, log: seq<Msg>, k: nat, cut: nat, owner: Owner)
    requires Owned(db, log, owner) && NoEarlyTransfer(db, log) && k < |log| && !Torn(db, log, k, cut)
    ensures Owned(Crashed(db, log, k, cut), log, owner) && NoEarlyTransfer(Crashed(db, log, k, cut), log)
  {
    var t := Crashed(db, log, k, cut);
    CrashedOwned(db, log, k, cut, owner);
    Converges(db, log, k, cut, owner);
    forall j | 0 <= j < |log| ensures !EarlyTransfer(t, log, j) {
      if EarlyTransfer(t, log, j) && Key(log[j].orgId, log[j].newLeader) in Run(db, log[..j]).members {
        PresentSooner(db, log, k, cut, j, Key(log[j].orgId, log[j].newLeader));
      }
      assert !EarlyTransfer(db, log, j);
    }
  }

  /** No crash disturbs a block in which no transfer comes before its member's row. */
  lemma {:induction false} OwnedUndisturbed(db: Db, log: seq<Msg>, crashes: seq<Crash>, owner: Owner)
    requires InBlock(log, crashes) && Untorn(db, log, crashes)
    requires Owned(db, log, owner) && NoEarlyTransfer(db, log)
    ensures Undisturbed(db, log, crashes)
    decreases |crashes|
  {
    if crashes != [] {
      var k, cut := crashes[0].at, crashes[0].cut;
      OwnedPromotions(db, log, k, cut, owner);
      CrashKeepsOrder(db, log, k, cut, owner);
      OwnedUndisturbed(Crashed(db, log, k, cut), log, crashes[1..], owner);
    }
  }

  /** Along the uninterrupted pass, no block has a torn crash or a transfer ahead of its member. */
  ghost predicate InOrder(db: Db, life: seq<Attempted>)
    requires WellFormed(life)
    decreases |life|
  {
    life == [] || (
      && Untorn(db, life[0].log, life[0].crashes)
      && NoEarlyTransfer(db, life[0].log)
      && InOrder(Run(db, life[0].log), life[1..]))
  }

  lemma {:induction false} OwnedLifeConverges(db: Db, life: seq<Attempted>, owner: Owner)
    requires WellFormed(life) && InOrder(db, life) && Owned(db, Messages(life), owner)
    ensures Harmless(db, life) && Live(db, life) == Run(db, Messages(life))
    decreases |life|
  {
    OwnedIsUnique(db, owner);
    if life != [] {
      var log := life[0].log;
      OwnedParts(log, Messages(life[1..]), owner);
      OwnedUndisturbed(db, log, life[0].crashes, owner);
      RunKeepsOwned(db, log, owner);
      OwnedLifeConverges(Run(db, log), life[1..], owner);
    }
    LifeConverges(db, life);
  }
}
