/** Replay where every wallet has one owner, and two logs where none has. */
module OrgOwnership {
  // With one owner per wallet no promotion is ever refused, and replay goes wrong only after a transfer that
  // comes before its member's row.

  import opened OrgLog
  import opened OrgReplay
  import opened OrgConvergence
  import opened Wrappers

  type Owner = (Id, Id) -> Id

  ghost predicate WalletsOwned(db: Db, owner: Owner) {
    forall k :: k in db.members && db.members[k].wallet.Some? ==> owner(k.org, db.members[k].wallet.value) == k.pubkey
  }

  ghost predicate LogOwned(log: seq<Msg>, owner: Owner) {
    forall i :: 0 <= i < |log| && log[i].TransferLeadership? ==> owner(log[i].orgId, log[i].wallet) == log[i].newLeader
  }

  /** In the tables and in the log, a wallet belongs to one member of its org. */
  ghost predicate Owned(db: Db, log: seq<Msg>, owner: Owner) {
    WalletsOwned(db, owner) && LogOwned(log, owner)
  }

  /** Message `j` hands leadership to somebody with no row yet, who has one by the end of the log. */
  ghost predicate EarlyTransfer(db: Db, log: seq<Msg>, j: nat)
    requires j < |log|
  {
    && log[j].TransferLeadership?
    && Key(log[j].orgId, log[j].newLeader) !in Run(db, log[..j]).members
    && Key(log[j].orgId, log[j].newLeader) in Run(db, log).members
  }

  ghost predicate NoEarlyTransfer(db: Db, log: seq<Msg>) {
    forall j :: 0 <= j < |log| ==> !EarlyTransfer(db, log, j)
  }

  lemma OwnedIsUnique(db: Db, owner: Owner)
    requires WalletsOwned(db, owner)
    ensures WalletsUnique(db)
  {
  }

  lemma ExecKeepsOwned(db: Db, m: Msg, cut: nat, owner: Owner)
    requires WalletsOwned(db, owner) && LogOwned([m], owner)
    ensures WalletsOwned(Exec(db, m, cut), owner)
  {
    hide Exec, PatchOf;
    assert [m][0] == m;
    var after := Exec(db, m, cut).members;
    forall k | k in after && after[k].wallet.Some? ensures owner(k.org, after[k].wallet.value) == k.pubkey {
      if k in db.members {
        ExistingStep(db, m, k, cut);
        PatchedWallet(m, k, cut, Lifts(db, m, k));
      } else {
        AbsentWallet(db, m, k, cut);
      }
    }
  }

  lemma PatchedWallet(m: Msg, key: Key, cut: nat, lifted: bool)
    ensures var wallet := PatchOf(m, key, cut, lifted).wallet;
            wallet == None || (lifted && m.TransferLeadership? && wallet == Some(m.wallet))
  {
  }

  lemma {:induction false} RunKeepsOwned(db: Db, log: seq<Msg>, owner: Owner)
    requires Owned(db, log, owner)
    ensures WalletsOwned(Run(db, log), owner)
    decreases |log|
  {
    if log != [] {
      ExecKeepsOwned(db, log[0], 3, owner);
      RunKeepsOwned(Apply(db, log[0]), log[1..], owner);
    }
  }

  lemma OwnedParts(a: seq<Msg>, b: seq<Msg>, owner: Owner)
    requires LogOwned(a + b, owner)
    ensures LogOwned(a, owner) && LogOwned(b, owner)
  {
    assert forall i :: 0 <= i < |a| ==> a[i] == (a + b)[i];
    assert forall i :: 0 <= i < |b| ==> b[i] == (a + b)[|a| + i];
  }

  lemma CrashedOwned(db: Db, log: seq<Msg>, k: nat, cut: nat, owner: Owner)
    requires Owned(db, log, owner) && k < |log|
    ensures WalletsOwned(Crashed(db, log, k, cut), owner)
  {
    RunKeepsOwned(db, log[..k], owner);
    ExecKeepsOwned(Run(db, log[..k]), log[k], cut, owner);
  }

  /** Then no promotion is ever refused. */
  lemma NeverRefused(db: Db, log: seq<Msg>, i: nat, owner: Owner)
    requires Owned(db, log, owner) && i < |log|
    ensures !Refused(Run(db, log[..i]), log[i])
  {
    RunKeepsOwned(db, log[..i], owner);
  }

  lemma {:induction false} SameLiftsSameLast(a: Db, b: Db, log: seq<Msg>, key: Key)
    requires forall i :: 0 <= i < |log| ==>
               (Lifts(Run(a, log[..i]), log[i], key) <==> Lifts(Run(b, log[..i]), log[i], key))
    ensures LastLift(a, log, key) == LastLift(b, log, key)
    decreases |log|
  {
    if log != [] {
      assert log[..|log| - 1] == Front(log);
      assert forall i :: 0 <= i < |Front(log)| ==> Front(log)[..i] == log[..i] && Front(log)[i] == log[i];
      SameLiftsSameLast(a, b, Front(log), key);
    }
  }

  lemma {:induction false} SameNamedOwned(a: Db, b: Db, log: seq<Msg>, org: Id, owner: Owner)
    requires Owned(a, log, owner) && Owned(b, log, owner)
    ensures LastNamed(a, log, org) == LastNamed(b, log, org)
    decreases |log|
  {
    if log != [] {
      assert log[..|log| - 1] == Front(log);
      NeverRefused(a, log, |log| - 1, owner);
      NeverRefused(b, log, |log| - 1, owner);
      SameNamedOwned(a, b, Front(log), org, owner);
    }
  }

  lemma OwnedPromotions(db: Db, log: seq<Msg>, k: nat, cut: nat, owner: Owner)
    requires Owned(db, log, owner) && NoEarlyTransfer(db, log) && k < |log| && !Torn(db, log, k, cut)
    ensures SamePromotions(db, Crashed(db, log, k, cut), log)
  {
    hide LastLift, LastNamed, Run, Exec;
    var t := Crashed(db, log, k, cut);
    CrashedOwned(db, log, k, cut, owner);
    forall key ensures LastLift(t, log, key) == LastLift(db, log, key) {
      forall i | 0 <= i < |log|
        ensures Lifts(Run(t, log[..i]), log[i], key) <==> Lifts(Run(db, log[..i]), log[i], key)
      {
        NeverRefused(db, log, i, owner);
        NeverRefused(t, log, i, owner);
        assert log[..|log|] == log;
        if key in Run(db, log[..i]).members {
          PresentSooner(db, log, k, cut, i, key);
        } else if key in Run(t, log[..i]).members {
          PresentLater(t, log, i, |log|, key);
          PlaceConverges(db, log, k, cut, key);
          assert !EarlyTransfer(db, log, i);
        }
      }
      SameLiftsSameLast(t, db, log, key);
    }
    forall org | org in db.orgs ensures SameNamed(db, t, log, org) {
      SameNamedOwned(db, t, log, org, owner);
    }
  }

  /** A crash anywhere but in the torn spot, followed by a replay of the whole log, leaves the same
      tables as one pass, when no transfer came before its member's row. */
  lemma Converges(db: Db, log: seq<Msg>, k: nat, cut: nat, owner: Owner)
    requires Owned(db, log, owner) && NoEarlyTransfer(db, log) && k < |log| && !Torn(db, log, k, cut)
    ensures SafeAt(db, log, k, cut)
  {
    OwnedIsUnique(db, owner);
    OwnedPromotions(db, log, k, cut, owner);
    ConvergesExactly(db, log, k, cut);
  }

  /** The org rows converge even where member rows do not. */
  lemma OrgConverges(db: Db, log: seq<Msg>, k: nat, cut: nat, org: Id, owner: Owner)
    requires Owned(db, log, owner) && k < |log| && org in db.orgs
    ensures org in Run(Crashed(db, log, k, cut), log).orgs && org in Run(db, log).orgs
    ensures Run(Crashed(db, log, k, cut), log).orgs[org] == Run(db, log).orgs[org]
  {
    var t := Crashed(db, log, k, cut);
    CrashedOwned(db, log, k, cut, owner);
    StatusConverges(db, log, k, cut, org);
    OrgRun(db, log, org);
    OrgRun(db, log[..k], org);
    OrgStep(Run(db, log[..k]), log[k], org, cut);
    OrgRun(t, log, org);
    SameNamedOwned(db, t, log, org, owner);
    if LastNamed(db, log, org) == None {
      NeverRefused(db, log, k, owner);
      if Transfers(log[k], org) {
        NamedFrom(db, log, k, org);
      }
      if LastNamed(db, log[..k], org).Some? {
        var i := NamedAt(db, log[..k], org);
        assert log[..k][..i] == log[..i];
        NamedFrom(db, log, i, org);
      }
    }
  }

  lemma PrefixNotEarly(db: Db, log: seq<Msg>, n: nat)
    requires NoEarlyTransfer(db, log) && n <= |log|
    ensures NoEarlyTransfer(db, log[..n])
  {
    forall j | 0 <= j < n ensures !EarlyTransfer(db, log[..n], j) {
      assert log[..n][..j] == log[..j] && log[..n][j] == log[j] && log[..|log|] == log;
      if EarlyTransfer(db, log[..n], j) {
        PresentLater(db, log, n, |log|, Key(log[j].orgId, log[j].newLeader));
        assert EarlyTransfer(db, log, j);
      }
    }
  }

  /** The message that inserts `key`. */
  lemma {:induction false} Creation(db: Db, log: seq<Msg>, key: Key) returns (c: nat)
    requires key !in db.members && key in Run(db, log).members
    ensures c < |log| && key !in Run(db, log[..c]).members && key in Run(db, log[..c + 1]).members
    ensures log[c].AddMember?
    decreases |log|
  {
    RunLast(db, log);
    if key in Run(db, Front(log)).members {
      c := Creation(db, Front(log), key);
      assert Front(log)[..c] == log[..c] && Front(log)[..c + 1] == log[..c + 1];
    } else {
      c := |log| - 1;
      assert log[..c + 1] == log;
      AbsentWallet(Run(db, Front(log)), Last(log), key, 3);
    }
  }

  /** An early transfer's wallet reaches the row only on the replay. */
  lemma EarlyTransferDiverges(db: Db, log: seq<Msg>, j: nat, owner: Owner) returns (n: nat)
    requires Owned(db, log, owner) && j < |log| && EarlyTransfer(db, log, j)
    ensures 0 < n <= |log| && !SafeAt(db, log[..n], n - 1, 3)
  {
    var key := Key(log[j].orgId, log[j].newLeader);
    if key in db.members {
      assert log[..0] == [];
      PresentLater(db, log, 0, j, key);
    }
    var c := Creation(db, log, key);
    if c < j {
      PresentLater(db, log, c + 1, j, key);
    }
    n := c + 1;
    var part := log[..n];
    assert part[..c] == log[..c] && part[c] == log[c] && part[j] == log[j] && part[..j] == log[..j];
    RunSnoc(db, log, c);
    var once := Run(db, part);
    CrashEnds(db, part, c);
    assert Front(part) == log[..c];
    NeverLifted(db, log[..c], key);
    NotThere(Run(db, log[..c]), log[c], key);
    assert LastLift(db, part, key) == None;
    RunKeepsOwned(db, part, owner);
    ExistingRun(once, part[..j], key);
    NeverRefused(once, part, j, owner);
    LiftedFrom(once, part, j, key);
    OwnedIsUnique(db, owner);
    ConvergesExactly(db, part, c, 3);
  }

  /** With one owner per wallet, replay is safe exactly when no transfer comes before its member's row. */
  lemma OwnedReplaySafe(db: Db, log: seq<Msg>, owner: Owner)
    requires Owned(db, log, owner)
    ensures ReplaySafe(db, log) <==> NoEarlyTransfer(db, log)
  {
    hide Exec, Run;
    if NoEarlyTransfer(db, log) {
      forall n, k, cut | 0 <= k < n <= |log| && cut >= 0 && !Torn(db, log[..n], k, cut)
        ensures SafeAt(db, log[..n], k, cut)
      {
        PrefixNotEarly(db, log, n);
        Converges(db, log[..n], k, cut, owner);
      }
    } else {
      var j :| 0 <= j < |log| && EarlyTransfer(db, log, j);
      var n := EarlyTransferDiverges(db, log, j, owner);
      assert !Torn(db, log[..n], n - 1, 3);
    }
  }

  // ----- without one owner per wallet -----

  lemma TransferWallets(db: Db, m: Msg)
    requires m.TransferLeadership?
    ensures Apply(db, m).members.Keys == db.members.Keys
    ensures forall k :: k in db.members ==>
              Apply(db, m).members[k].wallet == if Lifts(db, m, k) then Some(m.wallet) else db.members[k].wallet
  {
    forall k ensures k in Apply(db, m).members <==> k in db.members
      ensures k in db.members ==>
                Apply(db, m).members[k].wallet == if Lifts(db, m, k) then Some(m.wallet) else db.members[k].wallet
    {
      if k in db.members {
        WalletStep(db, m, k);
      } else {
        AbsentStep(db, m, k, 3);
      }
    }
  }

  /** Where nobody else of the org holds the wallet, the transfer promotes its row and no other. */
  lemma FreeWallet(db: Db, m: Msg)
    requires m.TransferLeadership? && Key(m.orgId, m.newLeader) in db.members
    requires forall k :: k in db.members && k.org == m.orgId && k.pubkey != m.newLeader ==>
               db.members[k].wallet != Some(m.wallet)
    ensures !Refused(db, m) && forall key :: Lifts(db, m, key) <==> key == Key(m.orgId, m.newLeader)
  {
  }

  lemma TakenWallet(db: Db, m: Msg, holder: Key)
    requires m.TransferLeadership? && Key(m.orgId, m.newLeader) in db.members
    requires holder in db.members && holder.org == m.orgId && holder.pubkey != m.newLeader
    requires db.members[holder].wallet == Some(m.wallet)
    ensures Refused(db, m) && forall key :: !Lifts(db, m, key)
  {
  }

  lemma RunPair(db: Db, a: Msg, b: Msg)
    ensures Run(db, [a, b]) == Apply(Apply(db, a), b)
  {
    assert [a, b][1..] == [b] && [b][1..] == [];
    assert Run(Apply(Apply(db, a), b), []) == Apply(Apply(db, a), b);
  }

  /** Without one owner per wallet, the unique-wallet constraint alone breaks convergence: `x` holds the
      wallet `y` is promoted with, so the first pass skips the promotion; then `x` moves to another
      wallet, and the replay goes through with it. */
  lemma SharedWalletDiverges(db: Db, org: Id, x: Id, y: Id, shared: Id, other: Id)
    requires x != y && shared != other && Key(org, x) in db.members && Key(org, y) in db.members
    requires db.members[Key(org, x)].wallet == Some(shared) && db.members[Key(org, y)].wallet == None
    requires !WalletTaken(db.members, org, x, other)
    requires forall k :: k in db.members && k.org == org && k.pubkey != x ==> db.members[k].wallet != Some(shared)
    ensures var log := [TransferLeadership(org, y, shared), TransferLeadership(org, x, other)];
            NoEarlyTransfer(db, log) && !SafeAt(db, log, 1, 3)
  {
    hide Exec, Run, WalletTaken;
    var a, b := TransferLeadership(org, y, shared), TransferLeadership(org, x, other);
    var log := [a, b];
    SharedFirst(db, org, x, y, shared, other);
    var once := Apply(Apply(db, a), b);
    SharedSecond(once, org, x, y, shared, b);
    RunPair(db, a, b);
    RunPair(once, a, b);
    assert log[..1] == [a];
    RunSnoc(db, log, 1);
    assert log[..2] == log;
    CrashEnds(db, log, 1);
    TwoPresent(db, a, b);
  }

  lemma SharedFirst(db: Db, org: Id, x: Id, y: Id, shared: Id, other: Id)
    requires x != y && shared != other && Key(org, x) in db.members && Key(org, y) in db.members
    requires db.members[Key(org, x)].wallet == Some(shared) && db.members[Key(org, y)].wallet == None
    requires !WalletTaken(db.members, org, x, other)
    requires forall k :: k in db.members && k.org == org && k.pubkey != x ==> db.members[k].wallet != Some(shared)
    ensures var once := Apply(Apply(db, TransferLeadership(org, y, shared)), TransferLeadership(org, x, other)).members;
            && once.Keys == db.members.Keys && once[Key(org, y)].wallet == None
            && forall k :: k in once && k.org == org ==> once[k].wallet != Some(shared)
  {
    hide Exec, Lifts, Refused;
    var a, b := TransferLeadership(org, y, shared), TransferLeadership(org, x, other);
    TakenWallet(db, a, Key(org, x));
    TransferWallets(db, a);
    var one := Apply(db, a);
    forall k | k in one.members && k.org == org && k.pubkey != x ensures one.members[k].wallet != Some(other) {
      assert one.members[k].wallet == db.members[k].wallet;
    }
    FreeWallet(one, b);
    TransferWallets(one, b);
  }

  lemma SharedSecond(once: Db, org: Id, x: Id, y: Id, shared: Id, b: Msg)
    requires x != y && Key(org, x) in once.members && Key(org, y) in once.members
    requires forall k :: k in once.members && k.org == org ==> once.members[k].wallet != Some(shared)
    requires b.TransferLeadership? && Key(b.orgId, b.newLeader) == Key(org, x)
    ensures var twice := Apply(Apply(once, TransferLeadership(org, y, shared)), b).members;
            Key(org, y) in twice && twice[Key(org, y)].wallet == Some(shared)
  {
    hide Exec, Refused;
    var a := TransferLeadership(org, y, shared);
    FreeWallet(once, a);
    TransferWallets(once, a);
    TransferWallets(Apply(once, a), b);
  }

  /** Transfers to members who have rows are not early. */
  lemma TwoPresent(db: Db, a: Msg, b: Msg)
    requires a.TransferLeadership? && Key(a.orgId, a.newLeader) in db.members
    requires b.TransferLeadership? && Key(b.orgId, b.newLeader) in db.members
    ensures NoEarlyTransfer(db, [a, b])
  {
    var log := [a, b];
    assert log[..0] == [] && log[..1] == [a];
    PresentLater(db, log, 0, 1, Key(b.orgId, b.newLeader));
  }

  lemma LastSnoc(db: Db, front: seq<Msg>, m: Msg, key: Key)
    ensures LastLift(db, front + [m], key)
         == if Lifts(Run(db, front), m, key) then Some(|front|) else LastLift(db, front, key)
    ensures LastNamed(db, front + [m], key.org)
         == if Transfers(m, key.org) && !Refused(Run(db, front), m) then Some(m.newLeader)
            else LastNamed(db, front, key.org)
  {
    assert Front(front + [m]) == front && Last(front + [m]) == m;
  }

  lemma LastOfThree(db: Db, a: Msg, b: Msg, c: Msg, key: Key)
    ensures var one := Apply(db, a);
            var two := Apply(one, b);
            && LastLift(db, [a, b, c], key) ==
               (if Lifts(two, c, key) then Some(2) else if Lifts(one, b, key) then Some(1)
                else if Lifts(db, a, key) then Some(0) else None)
            && LastNamed(db, [a, b, c], key.org) ==
               (if Transfers(c, key.org) && !Refused(two, c) then Some(c.newLeader)
                else if Transfers(b, key.org) && !Refused(one, b) then Some(b.newLeader)
                else if Transfers(a, key.org) && !Refused(db, a) then Some(a.newLeader) else None)
  {
    hide Exec, Lifts, Refused, Transfers;
    LastSnoc(db, [], a, key);
    LastSnoc(db, [a], b, key);
    LastSnoc(db, [a, b], c, key);
    assert [] + [a] == [a] && [a] + [b] == [a, b] && [a, b] + [c] == [a, b, c];
    RunPair(db, a, b);
    assert [a][1..] == [];
    assert Run(Apply(db, a), []) == Apply(db, a);
  }

  /** The transfers of `PassedWalletIsSafe`, run from tables where `y` is promoted with `second` and `x` with
      `first`, whatever happens to the transfer before. */
  lemma PassedRun(db: Db, org: Id, x: Id, y: Id, a: Msg, b: Msg, c: Msg)
    requires x != y && Key(org, x) in db.members && Key(org, y) in db.members
    requires a.TransferLeadership? && a.orgId == org && a.newLeader == y
    requires b.TransferLeadership? && b.orgId == org && b.newLeader == y && b.wallet != a.wallet
    requires c == TransferLeadership(org, x, a.wallet)
    requires forall k :: k in db.members && k.org == org && k.pubkey != x && k.pubkey != y ==>
               db.members[k].wallet !in {Some(a.wallet), Some(b.wallet)}
    requires db.members[Key(org, x)].wallet != Some(b.wallet)
    ensures var end := Apply(Apply(Apply(db, a), b), c).members;
            && end.Keys == db.members.Keys
            && end[Key(org, x)].wallet == Some(a.wallet) && end[Key(org, y)].wallet == Some(b.wallet)
            && forall k :: k in end && k != Key(org, x) && k != Key(org, y) ==> end[k].wallet == db.members[k].wallet
    ensures forall key :: key != Key(org, x) && key != Key(org, y) ==> LastLift(db, [a, b, c], key) == None
    ensures LastLift(db, [a, b, c], Key(org, y)) == Some(1) && LastLift(db, [a, b, c], Key(org, x)) == Some(2)
    ensures forall o :: LastNamed(db, [a, b, c], o) == if o == org then Some(x) else None
  {
    hide Exec, LastLift, LastNamed, Refused;
    var one := Apply(db, a);
    var two := Apply(one, b);
    TransferWallets(db, a);
    FreeWallet(one, b);
    TransferWallets(one, b);
    FreeWallet(two, c);
    TransferWallets(two, c);
    forall key ensures LastLift(db, [a, b, c], key)
                    == if key == Key(org, x) then Some(2) else if key == Key(org, y) then Some(1) else None
      ensures LastNamed(db, [a, b, c], key.org) == if key.org == org then Some(x) else None
    {
      LastOfThree(db, a, b, c, key);
    }
    forall o ensures LastNamed(db, [a, b, c], o) == if o == org then Some(x) else None {
      assert Key(o, x).org == o;
    }
  }

  /** One owner per wallet is not needed: `y` may pass the wallet it was promoted with on to `x`, if `y` itself
      is promoted again in between. */
  lemma PassedWalletIsSafe(db: Db, org: Id, x: Id, y: Id, first: Id, second: Id)
    requires WalletsUnique(db) && x != y && first != second && Key(org, x) in db.members && Key(org, y) in db.members
    requires forall k :: k in db.members && k.org == org ==> db.members[k].wallet !in {Some(first), Some(second)}
    ensures var log := [TransferLeadership(org, y, first), TransferLeadership(org, y, second),
                        TransferLeadership(org, x, first)];
            SafeAt(db, log, 2, 3) && forall owner :: !LogOwned(log, owner)
  {
    var a, b := TransferLeadership(org, y, first), TransferLeadership(org, y, second);
    var c := TransferLeadership(org, x, first);
    var log := [a, b, c];
    hide Exec, LastLift, LastNamed, SafeAt, Run, WalletsUnique;
    var end := Apply(Apply(Apply(db, a), b), c);
    PassedRun(db, org, x, y, a, b, c);
    PassedRun(end, org, x, y, a, b, c);
    assert log[..2] == [a, b];
    RunPair(db, a, b);
    CrashEnds(db, log, 2);
    NeverTorn(db, log, 2);
    forall key ensures LastLift(end, log, key) == LastLift(db, log, key) {
      if key != Key(org, x) && key != Key(org, y) {
        assert LastLift(db, log, key) == None;
      }
    }
    ConvergesExactly(db, log, 2, 3);
    forall owner: Owner ensures !LogOwned(log, owner) {
      assert log[0] == a && log[2] == c;
    }
  }

  lemma NeverTorn(db: Db, log: seq<Msg>, k: nat)
    requires k < |log|
    ensures !Torn(db, log, k, 3)
  {
  }
}
