/** When a crash and a replay leave the org tables as one uninterrupted pass would. */
module OrgConvergence {
  import opened OrgLog
  import opened OrgReplay
  import opened Wrappers

  /** The tables a crash leaves: `k` messages handled, and `cut` statements of the next. */
  ghost function Crashed(db: Db, log: seq<Msg>, k: nat, cut: nat): Db
    requires k < |log|
  {
    Exec(Run(db, log[..k]), log[k], cut)
  }

  /** The crash fell between inserting a member and approving the join request it came from. */
  ghost predicate Torn(db: Db, log: seq<Msg>, k: nat, cut: nat)
    requires k < |log|
  {
    cut == 1 && Promotes(Run(db, log[..k]), log[k])
  }

  // ----- what decides: which transfers go through -----

  predicate Transfers(m: Msg, org: Id) {
    m.TransferLeadership? && m.orgId == org
  }

  /** The leader the last transfer of the org that is not refused names. */
  function LastNamed(db: Db, log: seq<Msg>, org: Id): Option<Id>
    decreases |log|
  {
    if log == [] then None
    else if Transfers(Last(log), org) && !Refused(Run(db, Front(log)), Last(log)) then Some(Last(log).newLeader)
    else LastNamed(db, Front(log), org)
  }

  /** Over `b` the log promotes each row last with the same transfer as over `a`; and if any transfer of an
      org gets past the wallet constraint over `b`, the last that does names the leader that the last one
      over `a` names. Both passes answer this with the constraint's own guard. */
  ghost predicate SamePromotions(a: Db, b: Db, log: seq<Msg>) {
    && (forall key :: LastLift(b, log, key) == LastLift(a, log, key))
    && (forall org :: org in a.orgs ==> SameNamed(a, b, log, org))
  }

  ghost predicate SameNamed(a: Db, b: Db, log: seq<Msg>, org: Id) {
    LastNamed(b, log, org).Some? ==> LastNamed(b, log, org) == LastNamed(a, log, org)
  }

  // ----- where a crash leaves one key -----

  lemma {:induction false} BaseLater(db: Db, log: seq<Msg>, i: nat, key: Key)
    requires i <= |log| && key in Run(db, log[..i]).members
    ensures key in Run(db, log).members && Base(db, log, key) == Base(db, log[..i], key)
    decreases |log|
  {
    assert log[..|log|] == log;
    PresentLater(db, log, i, |log|, key);
    if i < |log| {
      assert Front(log)[..i] == log[..i];
      BaseLater(db, Front(log), i, key);
    }
  }

  /** The patches of a part of the log set no column the whole log does not. */
  lemma {:induction false} PartWithin(db: Db, log: seq<Msg>, k: nat, cut: nat, key: Key)
    requires k < |log|
    ensures Within(Then(PatchLog(db, log[..k], key), PatchOf(log[k], key, cut, Lifts(Run(db, log[..k]), log[k], key))),
                   PatchLog(db, log, key))
    decreases |log|
  {
    if k < |log| - 1 {
      assert Front(log)[..k] == log[..k];
      PartWithin(db, Front(log), k, cut, key);
    }
  }

  /** A row after a crash is its base with the patches of the part of the log that was handled. */
  lemma CrashedRow(db: Db, log: seq<Msg>, k: nat, cut: nat, key: Key) returns (x: Patch)
    requires k < |log| && key in Crashed(db, log, k, cut).members
    ensures key in Run(db, log).members && Within(x, PatchLog(db, log, key))
    ensures Crashed(db, log, k, cut).members[key] == Patched(x, Base(db, log, key))
  {
    hide PatchOf, Lifts, Patched, Then, Within;
    var at, m := Run(db, log[..k]), log[k];
    var early := PatchLog(db, log[..k], key);
    x := Then(early, PatchOf(m, key, cut, Lifts(at, m, key)));
    PartWithin(db, log, k, cut, key);
    if key in at.members {
      RowAfter(db, log[..k], key);
      ExistingStep(at, m, key, cut);
      BaseLater(db, log, k, key);
      PatchLaws(early, PatchOf(m, key, cut, Lifts(at, m, key)), Base(db, log, key));
    } else {
      AbsentWallet(at, m, key, cut);
      NeverLifted(db, log[..k], key);
      NotThere(at, m, key);
      RunSnoc(db, log, k);
      InsertedIsUpdated(at, m, early);
      BaseLater(db, log, k + 1, key);
      assert Front(log[..k + 1]) == log[..k];
      InsertPatch(m, key, cut);
    }
  }

  lemma InsertPatch(m: Msg, key: Key, cut: nat)
    requires m.AddMember? && cut > 0
    ensures PatchOf(m, key, cut, false) == PatchOf(m, key, 3, false)
  {
  }

  lemma StaysAbsent(db: Db, m: Msg, cut: nat, key: Key)
    requires key !in Exec(db, m, cut).members
    ensures key !in db.members && SamePlace(Exec(db, m, cut), db, key)
  {
    if key in db.members {
      ExistingStep(db, m, key, cut);
    } else if !(m.AddMember? && Key(m.orgId, m.pubkey) == key) {
      AbsentStep(db, m, key, cut);
    }
  }

  /** The crash came before the key had a row. */
  lemma AbsentPlace(db: Db, log: seq<Msg>, k: nat, cut: nat, key: Key)
    requires k < |log| && key !in Crashed(db, log, k, cut).members
    ensures key !in db.members && SamePlace(Crashed(db, log, k, cut), db, key)
  {
    var mid := Run(db, log[..k]);
    StaysAbsent(mid, log[k], cut, key);
    AbsentRun(db, log[..k], key);
    SameTrans(db.joins, mid.joins, Crashed(db, log, k, cut).joins, key);
  }

  lemma PresentRequests(db: Db, log: seq<Msg>, k: nat, cut: nat, key: Key)
    requires k < |log| && key in Crashed(db, log, k, cut).members && !Torn(db, log, k, cut)
    ensures key in Run(db, log).members && SamePlace(Crashed(db, log, k, cut), Run(db, log), key)
  {
    var at, t := Run(db, log[..k]), Crashed(db, log, k, cut);
    var x := CrashedRow(db, log, k, cut, key);
    RunSnoc(db, log, k);
    var next := Apply(at, log[k]);
    if key in at.members {
      ExistingStep(at, log[k], key, 3);
      ExistingRequests(at, log[k], key, cut);
      ExistingRequests(at, log[k], key, 3);
      SameTrans(t.joins, at.joins, next.joins, key);
    } else {
      AbsentWallet(at, log[k], key, cut);
      assert t == next;
    }
    assert log == log[..k + 1] + log[k + 1..];
    RunSplit(db, log[..k + 1], log[k + 1..]);
    ExistingRun(next, log[k + 1..], key);
    SameTrans(t.joins, next.joins, Run(db, log).joins, key);
  }

  /** Whatever the wallets do, a replay gives every key its row and its requests back. */
  lemma PlaceConverges(db: Db, log: seq<Msg>, k: nat, cut: nat, key: Key)
    requires k < |log| && !Torn(db, log, k, cut)
    ensures SamePlace(Run(Crashed(db, log, k, cut), log), Run(db, log), key)
  {
    var t := Crashed(db, log, k, cut);
    if key in t.members {
      ExistingRun(t, log, key);
      PresentRequests(db, log, k, cut, key);
      SameTrans(Run(t, log).joins, t.joins, Run(db, log).joins, key);
    } else {
      AbsentPlace(db, log, k, cut, key);
      SamePlaceRun(t, db, log, key);
    }
  }

  ghost predicate SameFor(a: Db, b: Db, key: Key) {
    SamePlace(a, b, key) && (key in a.members ==> a.members[key] == b.members[key])
  }

  /** If the replay promotes the row last with the same transfer, it leaves the same row. */
  lemma RowConverges(db: Db, log: seq<Msg>, k: nat, cut: nat, key: Key)
    requires k < |log| && !Torn(db, log, k, cut)
    requires LastLift(Crashed(db, log, k, cut), log, key) == LastLift(db, log, key)
    ensures SameFor(Run(Crashed(db, log, k, cut), log), Run(db, log), key)
  {
    hide PatchLog, LastLift, Patched, Then, Within, Run;
    var t := Crashed(db, log, k, cut);
    PlaceConverges(db, log, k, cut, key);
    if key in Run(db, log).members {
      SameLiftSamePatch(t, db, log, key);
      RowAfter(db, log, key);
      var p, row := PatchLog(db, log, key), Base(db, log, key);
      if key in t.members {
        ExistingRun(t, log, key);
        var x := CrashedRow(db, log, k, cut, key);
        PatchLaws(x, p, row);
      } else {
        AbsentPlace(db, log, k, cut, key);
        RowAfter(t, log, key);
        SameBase(t, db, log, key);
      }
    }
  }

  // ----- and only then -----

  /** Two runs that leave a row with the same wallet promoted it last with the same transfer: otherwise the
      later of the two promotions was refused to a row that already held its wallet. */
  lemma {:induction false} SameWalletSameLift(a: Db, b: Db, log: seq<Msg>, key: Key)
    requires WalletsUnique(a) && WalletsUnique(b)
    requires forall i :: 0 <= i <= |log| && key in Run(a, log[..i]).members ==> key in Run(b, log[..i]).members
    requires key in Run(a, log).members && key in Run(b, log).members
    requires Run(a, log).members[key].wallet == Run(b, log).members[key].wallet
    ensures LastLift(a, log, key) == LastLift(b, log, key)
    decreases |log|
  {
    if log != [] {
      var x, y, m := Run(a, Front(log)), Run(b, Front(log)), Last(log);
      assert Front(log) == log[..|log| - 1];
      assert forall i :: 0 <= i <= |Front(log)| ==> Front(log)[..i] == log[..i];
      RunLast(a, log);
      RunLast(b, log);
      RunKeepsUnique(a, Front(log));
      RunKeepsUnique(b, Front(log));
      if key in x.members {
        WalletStep(x, m, key);
        WalletStep(y, m, key);
        if Lifts(x, m, key) && !Lifts(y, m, key) {
          HolderIsLifted(y, m, key);
        } else if Lifts(y, m, key) && !Lifts(x, m, key) {
          HolderIsLifted(x, m, key);
        } else if !Lifts(x, m, key) {
          SameWalletSameLift(a, b, Front(log), key);
        }
      } else {
        NeverLifted(a, Front(log), key);
        AbsentWallet(x, m, key, 3);
        if key in y.members {
          WalletStep(y, m, key);
          LiftedHolds(b, Front(log), key);
        } else {
          NeverLifted(b, Front(log), key);
        }
      }
    }
  }

  lemma WalletStep(db: Db, m: Msg, key: Key)
    requires key in db.members
    ensures key in Apply(db, m).members
    ensures Apply(db, m).members[key].wallet == if Lifts(db, m, key) then Some(m.wallet) else db.members[key].wallet
  {
    ExistingStep(db, m, key, 3);
  }

  lemma LiftedHolds(db: Db, log: seq<Msg>, key: Key)
    requires key in Run(db, log).members && Run(db, log).members[key].wallet == None
    ensures LastLift(db, log, key) == None
  {
    RowAfter(db, log, key);
    LastLiftSets(db, log, key);
  }

  lemma CrashedUnique(db: Db, log: seq<Msg>, k: nat, cut: nat)
    requires WalletsUnique(db) && k < |log|
    ensures WalletsUnique(Crashed(db, log, k, cut))
  {
    RunKeepsUnique(db, log[..k]);
    ExecKeepsUnique(Run(db, log[..k]), log[k], cut);
  }

  /** A row there at some point of the first pass is there at that point of the replay. */
  lemma PresentSooner(db: Db, log: seq<Msg>, k: nat, cut: nat, i: nat, key: Key)
    requires k < |log| && i <= |log| && key in Run(db, log[..i]).members
    ensures key in Run(Crashed(db, log, k, cut), log[..i]).members
  {
    var t := Crashed(db, log, k, cut);
    if key in t.members {
      ExistingRun(t, log[..i], key);
    } else {
      AbsentPlace(db, log, k, cut, key);
      SamePlaceRun(t, db, log[..i], key);
    }
  }

  lemma RowTells(db: Db, log: seq<Msg>, k: nat, cut: nat, key: Key)
    requires WalletsUnique(db) && k < |log|
    requires SameFor(Run(Crashed(db, log, k, cut), log), Run(db, log), key)
    ensures LastLift(Crashed(db, log, k, cut), log, key) == LastLift(db, log, key)
  {
    var t := Crashed(db, log, k, cut);
    if key in Run(db, log).members {
      CrashedUnique(db, log, k, cut);
      forall i | 0 <= i <= |log| && key in Run(db, log[..i]).members ensures key in Run(t, log[..i]).members {
        PresentSooner(db, log, k, cut, i, key);
      }
      SameWalletSameLift(db, t, log, key);
    } else {
      NeverLifted(db, log, key);
      NeverLifted(t, log, key);
    }
  }

  // ----- the org rows -----

  predicate Closes(m: Msg, org: Id) {
    m.CloseOrg? && m.orgId == org
  }

  ghost predicate ClosedIn(log: seq<Msg>, org: Id) {
    exists i :: 0 <= i < |log| && Closes(log[i], org)
  }

  lemma OrgStep(db: Db, m: Msg, org: Id, cut: nat)
    requires org in db.orgs
    ensures org in Exec(db, m, cut).orgs
    ensures var after := Exec(db, m, cut).orgs[org];
            && after.leader == (if Transfers(m, org) && cut > 2 && !Refused(db, m) then m.newLeader
                                else db.orgs[org].leader)
            && after.closed == (db.orgs[org].closed || (Closes(m, org) && cut > 0))
  {
    if m.TransferLeadership? {
      DemotedWallets(db.members, m.orgId, m.newLeader, m.wallet);
    }
  }

  lemma {:induction false} OrgRun(db: Db, log: seq<Msg>, org: Id)
    requires org in db.orgs
    ensures org in Run(db, log).orgs
    ensures Run(db, log).orgs[org].closed == (db.orgs[org].closed || ClosedIn(log, org))
    ensures Run(db, log).orgs[org].leader
         == if LastNamed(db, log, org).Some? then LastNamed(db, log, org).value else db.orgs[org].leader
    decreases |log|
  {
    if log != [] {
      OrgRun(db, Front(log), org);
      RunLast(db, log);
      OrgStep(Run(db, Front(log)), Last(log), org, 3);
      if i :| 0 <= i < |log| && Closes(log[i], org) {
        assert i < |log| - 1 ==> Front(log)[i] == log[i];
      }
      if i :| 0 <= i < |Front(log)| && Closes(Front(log)[i], org) {
        assert log[i] == Front(log)[i];
      }
    }
  }

  lemma StatusConverges(db: Db, log: seq<Msg>, k: nat, cut: nat, org: Id)
    requires k < |log| && org in db.orgs
    ensures org in Run(Crashed(db, log, k, cut), log).orgs && org in Run(db, log).orgs
    ensures Run(Crashed(db, log, k, cut), log).orgs[org].closed == Run(db, log).orgs[org].closed
  {
    OrgRun(db, log, org);
    OrgRun(db, log[..k], org);
    OrgStep(Run(db, log[..k]), log[k], org, cut);
    OrgRun(Crashed(db, log, k, cut), log, org);
    if i :| 0 <= i < k && Closes(log[..k][i], org) {
      assert Closes(log[i], org);
    }
  }

  lemma {:induction false} NamedAt(db: Db, log: seq<Msg>, org: Id) returns (i: nat)
    requires LastNamed(db, log, org).Some?
    ensures i < |log| && Transfers(log[i], org) && !Refused(Run(db, log[..i]), log[i])
    decreases |log|
  {
    if Transfers(Last(log), org) && !Refused(Run(db, Front(log)), Last(log)) {
      i := |log| - 1;
    } else {
      i := NamedAt(db, Front(log), org);
      assert Front(log)[..i] == log[..i];
    }
  }

  lemma {:induction false} NamedFrom(db: Db, log: seq<Msg>, i: nat, org: Id)
    requires i < |log| && Transfers(log[i], org) && !Refused(Run(db, log[..i]), log[i])
    ensures LastNamed(db, log, org).Some?
    decreases |log|
  {
    if i < |log| - 1 {
      assert Front(log)[..i] == log[..i];
      NamedFrom(db, Front(log), i, org);
    }
  }

  lemma {:induction false} LiftedAt(db: Db, log: seq<Msg>, key: Key)
    requires LastLift(db, log, key).Some?
    ensures var i := LastLift(db, log, key).value; i < |log| && Lifts(Run(db, log[..i]), log[i], key)
    decreases |log|
  {
    if !Lifts(Run(db, Front(log)), Last(log), key) {
      LiftedAt(db, Front(log), key);
      var i := LastLift(db, log, key).value;
      assert Front(log)[..i] == log[..i];
    }
  }

  lemma {:induction false} LiftedFrom(db: Db, log: seq<Msg>, i: nat, key: Key)
    requires i < |log| && Lifts(Run(db, log[..i]), log[i], key)
    ensures LastLift(db, log, key).Some?
    decreases |log|
  {
    if i < |log| - 1 {
      assert Front(log)[..i] == log[..i];
      LiftedFrom(db, Front(log), i, key);
    }
  }

  /** A promotion is a transfer that is not refused. */
  lemma LiftedIsNamed(db: Db, log: seq<Msg>, key: Key)
    requires LastLift(db, log, key).Some?
    ensures LastNamed(db, log, key.org).Some?
  {
    LiftedAt(db, log, key);
    NamedFrom(db, log, LastLift(db, log, key).value, key.org);
  }

  /** If each row is promoted last with the same transfer, an org whose leader the replay names was named one
      in the first pass. */
  lemma NamedBefore(db: Db, log: seq<Msg>, k: nat, cut: nat, org: Id)
    requires k < |log| && forall key :: LastLift(Crashed(db, log, k, cut), log, key) == LastLift(db, log, key)
    requires LastNamed(Crashed(db, log, k, cut), log, org).Some?
    ensures LastNamed(db, log, org).Some?
  {
    var t := Crashed(db, log, k, cut);
    var i := NamedAt(t, log, org);
    var key := Key(org, log[i].newLeader);
    if Refused(Run(db, log[..i]), log[i]) {
      PresentSooner(db, log, k, cut, i, key);
      LiftedFrom(t, log, i, key);
      LiftedIsNamed(db, log, key);
    } else {
      NamedFrom(db, log, i, org);
    }
  }

  lemma {:induction false} NothingNamed(db: Db, log: seq<Msg>, k: nat, org: Id)
    requires k <= |log|
    requires forall i :: k <= i < |log| && Transfers(log[i], org) ==> Refused(Run(db, log[..i]), log[i])
    ensures LastNamed(db, log, org) == LastNamed(db, log[..k], org)
    decreases |log|
  {
    if k == |log| {
      assert log[..k] == log;
    } else {
      assert Front(log)[..k] == log[..k];
      assert log[..|log| - 1] == Front(log);
      forall i | k <= i < |Front(log)| && Transfers(Front(log)[i], org)
        ensures Refused(Run(db, Front(log)[..i]), Front(log)[i])
      {
        assert Front(log)[..i] == log[..i] && Front(log)[i] == log[i];
      }
      NothingNamed(db, Front(log), k, org);
    }
  }

  /** From the crash on, a row the replay has at a transfer was there in the first pass. */
  lemma PresentByThen(db: Db, log: seq<Msg>, k: nat, cut: nat, i: nat, key: Key)
    requires k <= i < |log| && log[i].TransferLeadership?
    requires key in Run(Crashed(db, log, k, cut), log[..i]).members
    ensures key in Run(db, log[..i]).members
  {
    var t, at := Crashed(db, log, k, cut), Run(db, log[..k]);
    if key !in t.members {
      AbsentPlace(db, log, k, cut, key);
      SamePlaceRun(t, db, log[..i], key);
    } else if key in at.members {
      PresentLater(db, log, k, i, key);
    } else {
      AbsentWallet(at, log[k], key, cut);
      RunSnoc(db, log, k);
      PresentLater(db, log, k + 1, i, key);
    }
  }

  /** If the replay names no leader for the org, the crash left the leader of the whole first pass. */
  lemma LeaderKept(db: Db, log: seq<Msg>, k: nat, cut: nat, org: Id)
    requires k < |log| && org in db.orgs
    requires forall key :: LastLift(Crashed(db, log, k, cut), log, key) == LastLift(db, log, key)
    requires LastNamed(Crashed(db, log, k, cut), log, org) == None
    ensures org in Crashed(db, log, k, cut).orgs && org in Run(db, log).orgs
    ensures Crashed(db, log, k, cut).orgs[org].leader == Run(db, log).orgs[org].leader
  {
    var t := Crashed(db, log, k, cut);
    forall i | k <= i < |log| && Transfers(log[i], org) ensures Refused(Run(db, log[..i]), log[i]) {
      var key := Key(org, log[i].newLeader);
      if !Refused(Run(t, log[..i]), log[i]) {
        NamedFrom(t, log, i, org);
      }
      PresentByThen(db, log, k, cut, i, key);
      if Lifts(Run(db, log[..i]), log[i], key) {
        LiftedFrom(db, log, i, key);
        LiftedIsNamed(t, log, key);
      }
    }
    NothingNamed(db, log, k, org);
    OrgRun(db, log, org);
    OrgRun(db, log[..k], org);
    OrgStep(Run(db, log[..k]), log[k], org, cut);
  }

  /** Where each row is promoted last with the same transfer, an org's leader comes back exactly when the
      replay names none or the one the first pass named. */
  lemma LeaderConverges(db: Db, log: seq<Msg>, k: nat, cut: nat, org: Id)
    requires k < |log| && org in db.orgs
    requires forall key :: LastLift(Crashed(db, log, k, cut), log, key) == LastLift(db, log, key)
    ensures org in Run(Crashed(db, log, k, cut), log).orgs && org in Run(db, log).orgs
    ensures Run(Crashed(db, log, k, cut), log).orgs[org].leader == Run(db, log).orgs[org].leader
       <==> SameNamed(db, Crashed(db, log, k, cut), log, org)
  {
    var t := Crashed(db, log, k, cut);
    OrgRun(db, log, org);
    OrgRun(db, log[..k], org);
    OrgStep(Run(db, log[..k]), log[k], org, cut);
    OrgRun(t, log, org);
    if LastNamed(t, log, org).Some? {
      NamedBefore(db, log, k, cut, org);
    } else {
      LeaderKept(db, log, k, cut, org);
    }
  }

  lemma {:induction false} OrgsRun(db: Db, log: seq<Msg>)
    ensures Run(db, log).orgs.Keys == db.orgs.Keys
    decreases |log|
  {
    if log != [] {
      OrgsRun(Apply(db, log[0]), log[1..]);
    }
  }

  // ----- the envelopes -----

  function RemovedBy(m: Msg): set<Key> {
    if m.RemoveMember? then {Key(m.orgId, m.pubkey)} else {}
  }

  function RemovedIn(log: seq<Msg>): set<Key> {
    set i | 0 <= i < |log| && log[i].RemoveMember? :: Key(log[i].orgId, log[i].pubkey)
  }

  lemma {:induction false} EnvelopesRun(db: Db, log: seq<Msg>)
    ensures Run(db, log).envelopes == db.envelopes - RemovedIn(log)
    decreases |log|
  {
    if log != [] {
      EnvelopesRun(Apply(db, log[0]), log[1..]);
      assert RemovedIn(log) == RemovedBy(log[0]) + RemovedIn(log[1..]) by {
        assert forall i :: 0 < i < |log| ==> log[i] == log[1..][i - 1];
        assert forall i :: 0 <= i < |log[1..]| ==> log[1..][i] == log[i + 1];
      }
    }
  }

  lemma EnvelopesConverge(db: Db, log: seq<Msg>, k: nat, cut: nat)
    requires k < |log|
    ensures Run(Crashed(db, log, k, cut), log).envelopes == Run(db, log).envelopes
  {
    EnvelopesRun(db, log);
    EnvelopesRun(db, log[..k]);
    EnvelopesRun(Crashed(db, log, k, cut), log);
    assert RemovedIn(log[..k]) <= RemovedIn(log);
    assert RemovedBy(log[k]) <= RemovedIn(log);
  }

  // ----- the whole tables -----

  lemma SameEverywhere(a: Db, b: Db)
    requires forall key :: SameFor(a, b, key)
    requires forall org :: org in a.orgs && org in b.orgs ==> a.orgs[org] == b.orgs[org]
    requires a.envelopes == b.envelopes
    ensures a == b
  {
    assert SameFor(a, b, Key(0, 0));
    forall key ensures key in a.members <==> key in b.members {
      assert SameFor(a, b, key);
    }
    forall key | key in a.members ensures a.members[key] == b.members[key] {
      assert SameFor(a, b, key);
    }
    assert a.members == b.members;
    forall i | 0 <= i < |a.joins| ensures a.joins[i] == b.joins[i] {
      var key := Key(a.joins[i].orgId, a.joins[i].requester);
      assert SameFor(a, b, key) && For(a.joins[i], key);
    }
    assert a.joins == b.joins;
    assert a.orgs == b.orgs;
  }

  /** After a crash anywhere but in the torn spot, a replay of the whole log leaves the tables of one pass
      exactly when it promotes each row last with the transfer the first pass did, and an org's last
      transfer to get past the wallet constraint still names the same leader. */
  lemma ConvergesExactly(db: Db, log: seq<Msg>, k: nat, cut: nat)
    requires WalletsUnique(db) && k < |log| && !Torn(db, log, k, cut)
    ensures SafeAt(db, log, k, cut) <==> SamePromotions(db, Crashed(db, log, k, cut), log)
  {
    hide LastLift, LastNamed, Run, Exec;
    var t := Crashed(db, log, k, cut);
    var a, b := Run(t, log), Run(db, log);
    if a == b {
      forall key ensures LastLift(t, log, key) == LastLift(db, log, key) {
        PlaceConverges(db, log, k, cut, key);
        RowTells(db, log, k, cut, key);
      }
    }
    if forall key :: LastLift(t, log, key) == LastLift(db, log, key) {
      OrgsRun(db, log);
      forall org | org in db.orgs
        ensures org in a.orgs && org in b.orgs && (a.orgs[org] == b.orgs[org] <==> SameNamed(db, t, log, org))
      {
        LeaderConverges(db, log, k, cut, org);
        StatusConverges(db, log, k, cut, org);
      }
      if forall org :: org in db.orgs ==> SameNamed(db, t, log, org) {
        forall key ensures SameFor(a, b, key) {
          RowConverges(db, log, k, cut, key);
        }
        EnvelopesConverge(db, log, k, cut);
        SameEverywhere(a, b);
      }
    }
  }

  /** In the torn spot the replay never catches up: the join request is approved in one pass and
      stays open after the crash, because the replay finds the member's row already there. */
  lemma TornNeverConverges(db: Db, log: seq<Msg>, k: nat)
    requires k < |log| && Torn(db, log, k, 1)
    ensures !SafeAt(db, log, k, 1)
  {
    var at := Run(db, log[..k]);
    var m := log[k];
    var key := Key(m.orgId, m.pubkey);
    var i := Pick(at.joins, key);
    RunSnoc(db, log, k);
    var next := Apply(at, m);
    var t := Crashed(db, log, k, 1);
    assert log == log[..k + 1] + log[k + 1..];
    RunSplit(db, log[..k + 1], log[k + 1..]);
    ExistingRun(next, log[k + 1..], key);
    ExistingRun(t, log, key);
    assert For(next.joins[i], key) && next.joins[i].status == Approved;
    assert For(t.joins[i], key) && t.joins[i].status != Approved;
  }

  // ----- exactly when replay is safe -----

  ghost predicate SafeAt(db: Db, log: seq<Msg>, k: nat, cut: nat)
    requires k < |log|
  {
    Run(Crashed(db, log, k, cut), log) == Run(db, log)
  }

  /** Whenever the log stops growing, and wherever short of the torn spot a crash falls, replay ends in
      the tables of one pass. */
  ghost predicate ReplaySafe(db: Db, log: seq<Msg>) {
    forall n, k, cut :: 0 <= k < n <= |log| && cut >= 0 && !Torn(db, log[..n], k, cut) ==> SafeAt(db, log[..n], k, cut)
  }

  /** Handling any first part of the log a second time promotes each row last with the transfer the first
      time did, and names no other leader. */
  ghost predicate Steady(db: Db, log: seq<Msg>) {
    forall n :: 0 <= n <= |log| ==> SamePromotions(db, Run(db, log[..n]), log[..n])
  }

  /** The wallets, and what decides which rows there are, are the same. */
  ghost predicate SameWallets(a: Db, b: Db) {
    forall key :: SameWallet(a, b, key)
  }

  ghost predicate SameWallet(a: Db, b: Db, key: Key) {
    SamePlace(a, b, key) && (key in a.members ==> a.members[key].wallet == b.members[key].wallet)
  }

  lemma SameGuards(a: Db, b: Db, m: Msg, key: Key)
    requires SameWallets(a, b)
    ensures Refused(a, m) == Refused(b, m) && Lifts(a, m, key) == Lifts(b, m, key)
  {
    if m.TransferLeadership? {
      assert SameWallet(a, b, Key(m.orgId, m.newLeader)) && SameWallet(a, b, key);
      forall k ensures k in a.members <==> k in b.members
        ensures k in a.members ==> a.members[k].wallet == b.members[k].wallet
      {
        assert SameWallet(a, b, k);
      }
    }
  }

  lemma SameWalletsStep(a: Db, b: Db, m: Msg)
    requires SameWallets(a, b)
    ensures SameWallets(Apply(a, m), Apply(b, m))
  {
    hide Exec, SameRequests;
    forall key ensures SameWallet(Apply(a, m), Apply(b, m), key) {
      assert SameWallet(a, b, key);
      SamePlaceStep(a, b, m, key);
      SameGuards(a, b, m, key);
      assert key in a.members <==> key in b.members;
      if key in a.members {
        WalletStep(a, m, key);
        WalletStep(b, m, key);
      }
    }
  }

  lemma {:induction false} SameWalletsRun(a: Db, b: Db, log: seq<Msg>)
    requires SameWallets(a, b)
    ensures SameWallets(Run(a, log), Run(b, log))
    ensures forall key :: LastLift(a, log, key) == LastLift(b, log, key)
    ensures forall org :: LastNamed(a, log, org) == LastNamed(b, log, org)
    decreases |log|
  {
    if log != [] {
      hide SameWallets, Lifts, Refused;
      SameWalletsRun(a, b, Front(log));
      RunLast(a, log);
      RunLast(b, log);
      var x, y := Run(a, Front(log)), Run(b, Front(log));
      SameWalletsStep(x, y, Last(log));
      forall key ensures LastLift(a, log, key) == LastLift(b, log, key) {
        SameGuards(x, y, Last(log), key);
      }
      SameGuards(x, y, Last(log), Key(0, 0));
    }
  }

  /** A crash inside a message leaves the wallets as they were before it or as they are after it. */
  lemma CrashWallets(db: Db, m: Msg, cut: nat)
    requires !(cut == 1 && Promotes(db, m))
    ensures SameWallets(Exec(db, m, cut), db) || SameWallets(Exec(db, m, cut), Apply(db, m))
  {
    var t := Exec(db, m, cut);
    if cut > 0 {
      if m.TransferLeadership? {
        if cut == 1 || Refused(db, m) {
          CutTransfer(db, m, cut);
        } else {
          assert t.members == Apply(db, m).members && t.joins == db.joins;
          assert SameWallets(t, Apply(db, m));
        }
      } else if m.CloseOrg? {
        assert SameWallets(t, db);
      } else {
        assert t.members == Apply(db, m).members && t.joins == Apply(db, m).joins;
        assert SameWallets(t, Apply(db, m));
      }
    }
  }

  lemma CutTransfer(db: Db, m: Msg, cut: nat)
    requires m.TransferLeadership? && cut > 0 && (cut == 1 || Refused(db, m))
    ensures SameWallets(Exec(db, m, cut), db)
  {
    DemotedWallets(db.members, m.orgId, m.newLeader, m.wallet);
    assert Exec(db, m, cut) == db.(members := Demoted(db.members, m.orgId));
    forall key ensures SameWallet(Exec(db, m, cut), db, key) {
    }
  }

  /** From tables a first part of the log left, the whole log gives what it gives from the start. */
  lemma SteadyAt(db: Db, log: seq<Msg>, j: nat, n: nat)
    requires WalletsUnique(db) && Steady(db, log) && j <= n <= |log|
    ensures Run(Run(db, log[..j]), log[..n]) == Run(db, log[..n])
  {
    var part := log[..j];
    assert log[..n] == part + log[j..n];
    if j == 0 {
      assert part == [];
    } else {
      assert part[..j - 1] == log[..j - 1] && part[j - 1] == log[j - 1];
      RunSnoc(db, log, j - 1);
      assert Crashed(db, part, j - 1, 3) == Run(db, part);
      ConvergesExactly(db, part, j - 1, 3);
      RunSplit(Run(db, part), part, log[j..n]);
      RunSplit(db, part, log[j..n]);
    }
  }

  lemma SteadyIsSafe(db: Db, log: seq<Msg>, n: nat, k: nat, cut: nat)
    requires WalletsUnique(db) && Steady(db, log) && k < n <= |log| && !Torn(db, log[..n], k, cut)
    ensures SafeAt(db, log[..n], k, cut)
  {
    hide Exec, Run, LastLift, LastNamed, SameWallets, Steady;
    var part := log[..n];
    assert part[..k] == log[..k] && part[k] == log[k];
    var at, t := Run(db, log[..k]), Crashed(db, part, k, cut);
    CrashWallets(at, log[k], cut);
    RunSnoc(db, log, k);
    SteadyAt(db, log, k, n);
    SteadyAt(db, log, k + 1, n);
    CrashEnds(db, part, k);
    ConvergesExactly(db, part, k, 0);
    ConvergesExactly(db, part, k, 3);
    var u := if SameWallets(t, at) then at else Apply(at, log[k]);
    assert SamePromotions(db, u, part);
    SameWalletsRun(t, u, part);
    ConvergesExactly(db, part, k, cut);
  }

  lemma CrashEnds(db: Db, log: seq<Msg>, k: nat)
    requires k < |log|
    ensures Crashed(db, log, k, 0) == Run(db, log[..k])
    ensures Crashed(db, log, k, 3) == Apply(Run(db, log[..k]), log[k])
  {
  }

  /** Replay is safe from every crash exactly when handling any first part of the log twice in a row
      promotes the same rows last. */
  lemma ReplaySafeExactly(db: Db, log: seq<Msg>)
    requires WalletsUnique(db)
    ensures ReplaySafe(db, log) <==> Steady(db, log)
  {
    hide Exec, Run, LastLift, LastNamed, SameWallets;
    if Steady(db, log) {
      forall n, k, cut | 0 <= k < n <= |log| && cut >= 0 && !Torn(db, log[..n], k, cut)
        ensures SafeAt(db, log[..n], k, cut)
      {
        SteadyIsSafe(db, log, n, k, cut);
      }
    }
    if ReplaySafe(db, log) {
      forall n | 0 <= n <= |log| ensures SamePromotions(db, Run(db, log[..n]), log[..n]) {
        var part := log[..n];
        if n == 0 {
          NothingPromoted(db, Run(db, part));
        } else {
          assert part[..n - 1] == log[..n - 1] && part[n - 1] == log[n - 1];
          RunSnoc(db, log, n - 1);
          CrashEnds(db, part, n - 1);
          assert SafeAt(db, part, n - 1, 3);
          ConvergesExactly(db, part, n - 1, 3);
        }
      }
    }
  }

  lemma NothingPromoted(a: Db, b: Db)
    ensures SamePromotions(a, b, [])
  {
  }
}
