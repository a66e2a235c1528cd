/** Running a message log over any org tables, by what each message writes to one row. Which rows a transfer
    promotes depends on the wallets the other rows hold at that moment (`Refused`). */
module OrgReplay {
  import opened OrgLog
  import opened Wrappers

  // ----- the guard of a promotion -----

  /** `UNIQUE (org_id, wallet_address)` on the tables themselves. */
  ghost predicate WalletsUnique(db: Db) {
    forall k, l :: k in db.members && l in db.members && k != l && k.org == l.org && db.members[k].wallet.Some? ==>
      db.members[k].wallet != db.members[l].wallet
  }

  /** The constraint stops the transfer after its demotion: another row of the org holds the wallet. */
  predicate Refused(db: Db, m: Msg) {
    && m.TransferLeadership?
    && Key(m.orgId, m.newLeader) in db.members
    && WalletTaken(db.members, m.orgId, m.newLeader, m.wallet)
  }

  /** The transfer promotes the row `key`. */
  predicate Lifts(db: Db, m: Msg, key: Key) {
    m.TransferLeadership? && Key(m.orgId, m.newLeader) == key && key in db.members && !Refused(db, m)
  }

  /** Demoting leaves wallets alone. */
  lemma DemotedWallets(members: map<Key, MemberRow>, org: Id, pubkey: Id, wallet: Id)
    ensures WalletTaken(Demoted(members, org), org, pubkey, wallet) <==> WalletTaken(members, org, pubkey, wallet)
  {
    var d := Demoted(members, org);
    assert forall k :: k in members ==> k in d && d[k].wallet == members[k].wallet;
  }

  /** A row that already holds the wallet is promoted. */
  lemma HolderIsLifted(db: Db, m: Msg, key: Key)
    requires WalletsUnique(db) && m.TransferLeadership? && Key(m.orgId, m.newLeader) == key
    requires key in db.members && db.members[key].wallet == Some(m.wallet)
    ensures Lifts(db, m, key)
  {
  }

  /** Every statement keeps the constraint. */
  lemma ExecKeepsUnique(db: Db, m: Msg, cut: nat)
    requires WalletsUnique(db)
    ensures WalletsUnique(Exec(db, m, cut))
  {
    var after := Exec(db, m, cut).members;
    forall k | k in after ensures k in db.members ==> Lifts(db, m, k) || after[k].wallet == db.members[k].wallet
      ensures k !in db.members ==> after[k].wallet == None
      ensures k in db.members && Lifts(db, m, k) ==> after[k].wallet in {db.members[k].wallet, Some(m.wallet)}
    {
      if k in db.members {
        ExistingStep(db, m, k, cut);
      } else {
        AbsentWallet(db, m, k, cut);
      }
    }
  }

  lemma AbsentWallet(db: Db, m: Msg, key: Key, cut: nat)
    requires key !in db.members && key in Exec(db, m, cut).members
    ensures Exec(db, m, cut).members[key].wallet == None
    ensures cut > 0 && m.AddMember? && Key(m.orgId, m.pubkey) == key && Inserted(db, m).Some?
    ensures Exec(db, m, cut).members[key] == Inserted(db, m).value
  {
    if !(m.AddMember? && Key(m.orgId, m.pubkey) == key) {
      AbsentStep(db, m, key, cut);
    }
  }

  lemma {:induction false} RunKeepsUnique(db: Db, log: seq<Msg>)
    requires WalletsUnique(db)
    ensures WalletsUnique(Run(db, log))
    decreases |log|
  {
    if log != [] {
      ExecKeepsUnique(db, log[0], 3);
      RunKeepsUnique(Apply(db, log[0]), log[1..]);
    }
  }

  // ----- parts of a log -----

  lemma {:induction false} RunSplit(db: Db, a: seq<Msg>, b: seq<Msg>)
    ensures Run(db, a + b) == Run(Run(db, a), b)
    decreases |a|
  {
    if a == [] {
      assert [] + b == b;
    } else {
      assert (a + b)[0] == a[0] && (a + b)[1..] == a[1..] + b;
      RunSplit(Apply(db, a[0]), a[1..], b);
    }
  }

  lemma RunSnoc(db: Db, log: seq<Msg>, i: nat)
    requires i < |log|
    ensures Run(db, log[..i + 1]) == Apply(Run(db, log[..i]), log[i])
  {
    assert log[..i + 1] == log[..i] + [log[i]];
    RunSplit(db, log[..i], [log[i]]);
    assert [log[i]][1..] == [];
    assert Run(Apply(Run(db, log[..i]), log[i]), []) == Apply(Run(db, log[..i]), log[i]);
  }

  function Front(log: seq<Msg>): seq<Msg>
    requires log != []
  {
    log[..|log| - 1]
  }

  function Last(log: seq<Msg>): Msg
    requires log != []
  {
    log[|log| - 1]
  }

  lemma RunLast(db: Db, log: seq<Msg>)
    requires log != []
    ensures Run(db, log) == Apply(Run(db, Front(log)), Last(log))
  {
    RunSnoc(db, log, |log| - 1);
    assert log[..|log|] == log;
  }

  // ----- what a message writes to one existing row -----

  /** The columns of one row a message sets. `membership` sets membership_active from is_trial. */
  datatype Patch = Patch(
    role: Option<Role>,
    caps: Option<(bool, bool)>,
    confirmed: bool,
    active: Option<bool>,
    membership: bool,
    wallet: Option<Id>)

  const Nothing := Patch(None, None, false, None, false, None)

  function Patched(p: Patch, row: MemberRow): MemberRow {
    row.(role := if p.role.Some? then p.role.value else row.role,
         canContribute := if p.caps.Some? then p.caps.value.0 else row.canContribute,
         canModerate := if p.caps.Some? then p.caps.value.1 else row.canModerate,
         chainConfirmed := p.confirmed || row.chainConfirmed,
         active := if p.active.Some? then p.active.value else row.active,
         membershipActive := if p.membership then !row.isTrial else row.membershipActive,
         wallet := if p.wallet.Some? then p.wallet else row.wallet)
  }

  function Then(p: Patch, q: Patch): Patch {
    Patch(
      if q.role.Some? then q.role else p.role,
      if q.caps.Some? then q.caps else p.caps,
      q.confirmed || p.confirmed,
      if q.active.Some? then q.active else p.active,
      q.membership || p.membership,
      if q.wallet.Some? then q.wallet else p.wallet)
  }

  /** `p` sets no column that `q` does not. */
  predicate Within(p: Patch, q: Patch) {
    && (p.role.Some? ==> q.role.Some?)
    && (p.caps.Some? ==> q.caps.Some?)
    && (p.confirmed ==> q.confirmed)
    && (p.active.Some? ==> q.active.Some?)
    && (p.membership ==> q.membership)
    && (p.wallet.Some? ==> q.wallet.Some?)
  }

  lemma PatchLaws(p: Patch, q: Patch, row: MemberRow)
    ensures Patched(q, Patched(p, row)) == Patched(Then(p, q), row)
    ensures Within(p, q) ==> Patched(q, Patched(p, row)) == Patched(q, row)
  {
  }

  /** The first `cut` statements of `m`, on the row `key`; `lifted` says whether a transfer promotes it.
      Demoting sets the role outright: a role is leader or member. */
  function PatchOf(m: Msg, key: Key, cut: nat, lifted: bool): Patch {
    if cut == 0 then Nothing
    else match m
      case AddMember(orgId, pubkey, _, role, c, d) =>
        if Key(orgId, pubkey) == key && role.Some? then Patch(role, Some((c, d)), true, Some(true), true, None)
        else Nothing
      case SetCapabilities(orgId, pubkey, c, d) =>
        if Key(orgId, pubkey) == key then Nothing.(caps := Some((c, d)), confirmed := true) else Nothing
      case RemoveMember(orgId, pubkey) =>
        if Key(orgId, pubkey) == key then Nothing.(active := Some(false)) else Nothing
      case TransferLeadership(orgId, newLeader, wallet) =>
        if orgId != key.org then Nothing
        else if !lifted || cut == 1 then Nothing.(role := Some(Member))
        else Patch(Some(Leader), None, true, Some(true), false, Some(wallet))
      case CloseOrg(orgId) =>
        if orgId == key.org && cut > 1 then Nothing.(active := Some(false)) else Nothing
      case Unrelated => Nothing
  }

  /** What a log run over `db` writes to the row `key`. */
  function PatchLog(db: Db, log: seq<Msg>, key: Key): Patch
    decreases |log|
  {
    if log == [] then Nothing
    else
      var before := Run(db, Front(log));
      Then(PatchLog(db, Front(log), key), PatchOf(Last(log), key, 3, Lifts(before, Last(log), key)))
  }

  lemma ExistingTransfer(db: Db, m: Msg, key: Key, cut: nat)
    requires m.TransferLeadership? && cut > 0 && key in db.members
    ensures key in ExecTransfer(db, m, cut).members
    ensures ExecTransfer(db, m, cut).members[key] == Patched(PatchOf(m, key, cut, Lifts(db, m, key)), db.members[key])
  {
    var leader := Key(m.orgId, m.newLeader);
    var demoted := Demoted(db.members, m.orgId);
    DemotedWallets(db.members, m.orgId, m.newLeader, m.wallet);
    var stops := cut == 1 || Refused(db, m);
    assert ExecTransfer(db, m, cut).members == if stops then demoted else Promoted(demoted, leader, m.wallet);
    RowTransfer(db.members, m, key, stops);
  }

  lemma RowTransfer(members: map<Key, MemberRow>, m: Msg, key: Key, stops: bool)
    requires m.TransferLeadership? && key in members
    ensures var demoted := Demoted(members, m.orgId);
            var leader := Key(m.orgId, m.newLeader);
            var after := if stops then demoted else Promoted(demoted, leader, m.wallet);
            && key in after
            && after[key] == Patched(PatchOf(m, key, 2, key == leader && !stops), members[key])
  {
    var row := members[key];
    if key.org == m.orgId {
      assert Demote(row) == row.(role := Member);
    }
  }

  lemma ExistingStep(db: Db, m: Msg, key: Key, cut: nat)
    requires key in db.members
    ensures key in Exec(db, m, cut).members
    ensures Exec(db, m, cut).members[key] == Patched(PatchOf(m, key, cut, Lifts(db, m, key)), db.members[key])
  {
    if cut > 0 {
      match m
      case TransferLeadership(_, _, _) => ExistingTransfer(db, m, key, cut);
      case AddMember(_, _, _, _, _, _) =>
      case SetCapabilities(_, _, _, _) => ExistingOther(db, m, key, cut);
      case RemoveMember(_, _) => ExistingOther(db, m, key, cut);
      case CloseOrg(_) => ExistingOther(db, m, key, cut);
      case Unrelated =>
    }
  }

  lemma ExistingOther(db: Db, m: Msg, key: Key, cut: nat)
    requires m.SetCapabilities? || m.RemoveMember? || m.CloseOrg?
    requires cut > 0 && key in db.members
    ensures key in Exec(db, m, cut).members
    ensures Exec(db, m, cut).members[key] == Patched(PatchOf(m, key, cut, false), db.members[key])
  {
  }

  /** What one message does to the requests of an existing row, and to the set of orgs. */
  lemma ExistingRequests(db: Db, m: Msg, key: Key, cut: nat)
    requires key in db.members
    ensures SameRequests(Exec(db, m, cut).joins, db.joins, key)
    ensures Exec(db, m, cut).orgs.Keys == db.orgs.Keys
  {
  }

  /** An existing row only collects patches, and its requests are left alone. */
  lemma {:induction false} ExistingRun(db: Db, log: seq<Msg>, key: Key)
    requires key in db.members
    ensures key in Run(db, log).members
    ensures Run(db, log).members[key] == Patched(PatchLog(db, log, key), db.members[key])
    ensures SameRequests(Run(db, log).joins, db.joins, key)
    ensures Run(db, log).orgs.Keys == db.orgs.Keys
    decreases |log|
  {
    if log != [] {
      hide PatchOf, Lifts, Patched, Then;
      ExistingRun(db, Front(log), key);
      RunLast(db, log);
      var before, m := Run(db, Front(log)), Last(log);
      ExistingStep(before, m, key, 3);
      ExistingRequests(before, m, key, 3);
      PatchLaws(PatchLog(db, Front(log), key), PatchOf(m, key, 3, Lifts(before, m, key)), db.members[key]);
      SameTrans(Run(db, log).joins, before.joins, db.joins, key);
    }
  }

  // ----- presence, requests and orgs: the part of the tables no wallet decides -----

  predicate For(r: JoinRequest, key: Key) {
    Key(r.orgId, r.requester) == key
  }

  /** Same requests for `key`, at the same places. */
  ghost predicate SameRequests(a: seq<JoinRequest>, b: seq<JoinRequest>, key: Key) {
    && |a| == |b|
    && (forall i :: 0 <= i < |a| ==> (For(a[i], key) <==> For(b[i], key)) && (For(a[i], key) ==> a[i] == b[i]))
  }

  ghost predicate SamePlace(a: Db, b: Db, key: Key) {
    && (key in a.members <==> key in b.members)
    && SameRequests(a.joins, b.joins, key)
    && a.orgs.Keys == b.orgs.Keys
  }

  lemma SameTrans(a: seq<JoinRequest>, b: seq<JoinRequest>, c: seq<JoinRequest>, key: Key)
    requires SameRequests(a, b, key) && SameRequests(b, c, key)
    ensures SameRequests(a, c, key) && SameRequests(c, a, key)
  {
  }

  lemma {:induction false} PickSame(a: seq<JoinRequest>, b: seq<JoinRequest>, key: Key)
    requires SameRequests(a, b, key)
    ensures Pick(a, key) == Pick(b, key)
  {
    if a != [] {
      assert SameRequests(a[1..], b[1..], key);
      PickSame(a[1..], b[1..], key);
      assert For(a[0], key) ==> a[0] == b[0];
      var rest := 1 + Pick(a[1..], key);
      if rest < |a| {
        assert a[rest] == a[1..][rest - 1] && b[rest] == b[1..][rest - 1];
      }
    }
  }

  lemma InsertedSame(a: Db, b: Db, m: Msg)
    requires m.AddMember? && SamePlace(a, b, Key(m.orgId, m.pubkey))
    ensures Inserted(a, m) == Inserted(b, m)
    ensures Pick(a.joins, Key(m.orgId, m.pubkey)) == Pick(b.joins, Key(m.orgId, m.pubkey))
  {
    PickSame(a.joins, b.joins, Key(m.orgId, m.pubkey));
  }

  /** A message that does not insert `key` leaves its requests alone. */
  lemma AbsentStep(db: Db, m: Msg, key: Key, cut: nat)
    requires key !in db.members
    requires !(m.AddMember? && Key(m.orgId, m.pubkey) == key)
    ensures key !in Exec(db, m, cut).members
    ensures SameRequests(Exec(db, m, cut).joins, db.joins, key)
    ensures Exec(db, m, cut).orgs.Keys == db.orgs.Keys
  {
  }

  lemma AddSame(a: Db, b: Db, m: Msg, key: Key)
    requires m.AddMember? && key == Key(m.orgId, m.pubkey)
    requires SamePlace(a, b, key) && key !in a.members
    ensures SamePlace(Apply(a, m), Apply(b, m), key)
    ensures key in Apply(a, m).members ==> Apply(a, m).members[key] == Apply(b, m).members[key]
  {
    InsertedSame(a, b, m);
  }

  lemma SamePlaceStep(a: Db, b: Db, m: Msg, key: Key)
    requires SamePlace(a, b, key)
    ensures SamePlace(Apply(a, m), Apply(b, m), key)
    ensures key !in a.members && key in Apply(a, m).members ==>
              Apply(a, m).members[key] == Apply(b, m).members[key]
  {
    if key !in a.members && m.AddMember? && Key(m.orgId, m.pubkey) == key {
      AddSame(a, b, m, key);
    } else {
      if key in a.members {
        ExistingStep(a, m, key, 3);
        ExistingStep(b, m, key, 3);
        ExistingRequests(a, m, key, 3);
        ExistingRequests(b, m, key, 3);
      } else {
        AbsentStep(a, m, key, 3);
        AbsentStep(b, m, key, 3);
      }
      SameTrans(Apply(a, m).joins, a.joins, b.joins, key);
      SameTrans(Apply(b, m).joins, b.joins, Apply(a, m).joins, key);
    }
  }

  lemma {:induction false} SamePlaceRun(a: Db, b: Db, log: seq<Msg>, key: Key)
    requires SamePlace(a, b, key)
    ensures SamePlace(Run(a, log), Run(b, log), key)
    decreases |log|
  {
    if log != [] {
      SamePlaceStep(a, b, log[0], key);
      SamePlaceRun(Apply(a, log[0]), Apply(b, log[0]), log[1..], key);
    }
  }

  /** Rows are never deleted. */
  lemma PresentLater(db: Db, log: seq<Msg>, i: nat, j: nat, key: Key)
    requires i <= j <= |log| && key in Run(db, log[..i]).members
    ensures key in Run(db, log[..j]).members
  {
    assert log[..j] == log[..i] + log[i..j];
    RunSplit(db, log[..i], log[i..j]);
    ExistingRun(Run(db, log[..i]), log[i..j], key);
  }

  /** While a key stays absent nothing about it changes. */
  lemma {:induction false} AbsentRun(db: Db, log: seq<Msg>, key: Key)
    requires key !in Run(db, log).members
    ensures key !in db.members && SamePlace(db, Run(db, log), key)
    decreases |log|
  {
    if key in db.members {
      ExistingRun(db, log, key);
    } else if log != [] {
      AbsentRun(Apply(db, log[0]), log[1..], key);
      AbsentUnchanged(db, log[0], key);
    }
  }

  lemma AbsentUnchanged(db: Db, m: Msg, key: Key)
    requires key !in db.members && key !in Apply(db, m).members
    ensures SameRequests(db.joins, Apply(db, m).joins, key) && Apply(db, m).orgs.Keys == db.orgs.Keys
  {
    if !(m.AddMember? && Key(m.orgId, m.pubkey) == key) {
      AbsentStep(db, m, key, 3);
    }
  }

  // ----- a row that may be inserted on the way -----

  /** The row the patches of a run fall on: the one there at the start, or the one a message inserts. */
  function Base(db: Db, log: seq<Msg>, key: Key): MemberRow
    requires key in Run(db, log).members
    decreases |log|
  {
    if log != [] && key in Run(db, Front(log)).members then Base(db, Front(log), key)
    else Run(db, log).members[key]
  }

  /** The last transfer of the log that promotes the row `key`. */
  function LastLift(db: Db, log: seq<Msg>, key: Key): Option<nat>
    decreases |log|
  {
    if log == [] then None
    else if Lifts(Run(db, Front(log)), Last(log), key) then Some(|log| - 1)
    else LastLift(db, Front(log), key)
  }

  /** An inserted row holds what updating it with the same message would write. */
  lemma InsertedIsUpdated(db: Db, m: Msg, p: Patch)
    requires m.AddMember? && Inserted(db, m).Some? && p.wallet == None
    ensures var key := Key(m.orgId, m.pubkey);
            Patched(Then(p, PatchOf(m, key, 3, false)), Inserted(db, m).value) == Inserted(db, m).value
  {
  }

  lemma {:induction false} NeverLifted(db: Db, log: seq<Msg>, key: Key)
    requires key !in Run(db, log).members
    ensures LastLift(db, log, key) == None && PatchLog(db, log, key).wallet == None
    decreases |log|
  {
    if log != [] {
      RunLast(db, log);
      if key in Run(db, Front(log)).members {
        ExistingStep(Run(db, Front(log)), Last(log), key, 3);
      }
      NeverLifted(db, Front(log), key);
    }
  }

  /** A row after a run is its base with the patches of the whole log: those from before it was inserted
      are all overwritten by the insertion. */
  lemma {:induction false} RowAfter(db: Db, log: seq<Msg>, key: Key)
    requires key in Run(db, log).members
    ensures Run(db, log).members[key] == Patched(PatchLog(db, log, key), Base(db, log, key))
    ensures key !in db.members ==> Base(db, log, key).wallet == None
    decreases |log|
  {
    if log != [] {
      hide PatchOf, Lifts, Patched, Then;
      RunLast(db, log);
      var before, m := Run(db, Front(log)), Last(log);
      if key in before.members {
        RowAfter(db, Front(log), key);
        ExistingStep(before, m, key, 3);
        PatchLaws(PatchLog(db, Front(log), key), PatchOf(m, key, 3, Lifts(before, m, key)), Base(db, log, key));
      } else {
        AbsentWallet(before, m, key, 3);
        NeverLifted(db, Front(log), key);
        NotThere(before, m, key);
        InsertedIsUpdated(before, m, PatchLog(db, Front(log), key));
      }
    } else {
      assert Patched(Nothing, db.members[key]) == db.members[key];
    }
  }

  lemma NotThere(db: Db, m: Msg, key: Key)
    requires key !in db.members
    ensures !Lifts(db, m, key)
  {
  }

  /** The wallet patch of a run is that of the last promotion. */
  lemma {:induction false} LastLiftSets(db: Db, log: seq<Msg>, key: Key)
    ensures var last := LastLift(db, log, key);
            && (last.Some? ==> last.value < |log| && log[last.value].TransferLeadership?)
            && PatchLog(db, log, key).wallet == if last.Some? then Some(log[last.value].wallet) else None
    decreases |log|
  {
    if log != [] {
      LastLiftSets(db, Front(log), key);
    }
  }

  /** Two runs of a log write the same to a row when they promote it last with the same transfer. */
  lemma {:induction false} SameLiftSamePatch(a: Db, b: Db, log: seq<Msg>, key: Key)
    ensures PatchLog(a, log, key).caps == PatchLog(b, log, key).caps
    ensures PatchLog(a, log, key).membership == PatchLog(b, log, key).membership
    ensures LastLift(a, log, key) == LastLift(b, log, key) ==> PatchLog(a, log, key) == PatchLog(b, log, key)
    decreases |log|
  {
    if log != [] {
      SameLiftSamePatch(a, b, Front(log), key);
      LastLiftSets(a, Front(log), key);
      LastLiftSets(b, Front(log), key);
    }
  }

  /** Two runs from tables that agree on the place of a key insert the same row for it. */
  lemma {:induction false} SameBase(a: Db, b: Db, log: seq<Msg>, key: Key)
    requires SamePlace(a, b, key) && key !in a.members
    requires key in Run(a, log).members && key in Run(b, log).members
    ensures Base(a, log, key) == Base(b, log, key)
    decreases |log|
  {
    if log != [] {
      SamePlaceRun(a, b, Front(log), key);
      RunLast(a, log);
      RunLast(b, log);
      if key in Run(a, Front(log)).members {
        SameBase(a, b, Front(log), key);
      } else {
        SamePlaceStep(Run(a, Front(log)), Run(b, Front(log)), Last(log), key);
      }
    }
  }
}
