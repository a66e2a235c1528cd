/** What each chain message makes of the rows it touches, field by field
    (wevibe-hub/internal/chain/watcher.go). */
module OrgEffects {
  import opened OrgLog
  import opened Wrappers

  // ----- the join request an add-member takes -----

  ghost predicate Waiting(r: JoinRequest, orgId: Id, pubkey: Id) {
    r.orgId == orgId && r.requester == pubkey && (r.status == Pending || r.status == Confirming)
  }

  /** No other waiting request comes before `i`: confirming ones go first, then the later requested. */
  ghost predicate Foremost(joins: seq<JoinRequest>, orgId: Id, pubkey: Id, i: nat) {
    && i < |joins| && Waiting(joins[i], orgId, pubkey)
    && forall k :: 0 <= k < |joins| && Waiting(joins[k], orgId, pubkey) ==>
         && (joins[k].status == Confirming ==> joins[i].status == Confirming)
         && (joins[k].status == joins[i].status ==> joins[k].requestedAt <= joins[i].requestedAt)
  }

  ghost predicate NoneWaiting(joins: seq<JoinRequest>, orgId: Id, pubkey: Id) {
    forall k :: 0 <= k < |joins| ==> !Waiting(joins[k], orgId, pubkey)
  }

  lemma {:induction false} PickForemost(joins: seq<JoinRequest>, orgId: Id, pubkey: Id)
    ensures var i := Pick(joins, Key(orgId, pubkey));
            if NoneWaiting(joins, orgId, pubkey) then i == |joins| else Foremost(joins, orgId, pubkey, i)
  {
    if joins != [] {
      PickForemost(joins[1..], orgId, pubkey);
      var rest := 1 + Pick(joins[1..], Key(orgId, pubkey));
      assert OpenFor(joins[0], Key(orgId, pubkey)) <==> Waiting(joins[0], orgId, pubkey);
      forall k | 1 <= k < |joins| ensures joins[k] == joins[1..][k - 1]
      {
      }
      if rest < |joins| {
        assert joins[rest] == joins[1..][rest - 1];
      } else {
        assert NoneWaiting(joins[1..], orgId, pubkey);
      }
    }
  }

  // ----- add-member -----

  /** Every row but the one for this key is as it was. */
  ghost predicate OthersKept(before: Db, after: Db, key: Key) {
    && after.members.Keys == before.members.Keys + {key}
    && forall k :: k in before.members && k != key ==> after.members[k] == before.members[k]
  }

  /** A member without a row who asked to join gets the row the foremost request was approved for: on trial and
      not yet a full member, or the other way round; at the tier approved, or the standard one; with the key the
      request carries and the rest from the message. The request is approved. A tier that the table refuses leaves
      everything as it was. */
  lemma AddFromRequest(db: Db, m: Msg)
    requires m.AddMember? && Key(m.orgId, m.pubkey) !in db.members && m.orgId in db.orgs && m.role.Some?
    requires !NoneWaiting(db.joins, m.orgId, m.pubkey)
    ensures exists i :: Foremost(db.joins, m.orgId, m.pubkey, i) && TookRequest(db, Apply(db, m), m, i)
  {
    PickForemost(db.joins, m.orgId, m.pubkey);
    assert TookRequest(db, Apply(db, m), m, Pick(db.joins, Key(m.orgId, m.pubkey)));
  }

  ghost predicate TookRequest(before: Db, after: Db, m: Msg, i: nat)
    requires m.AddMember? && m.role.Some? && i < |before.joins|
  {
    var request := before.joins[i];
    var key := Key(m.orgId, m.pubkey);
    if request.approvalTier == Some(Rejected) then after == before
    else
      && OthersKept(before, after, key) && after.orgs == before.orgs && after.envelopes == before.envelopes
      && |after.joins| == |before.joins|
      && after.joins[i] == request.(status := Approved)
      && (forall k :: 0 <= k < |before.joins| && k != i ==> after.joins[k] == before.joins[k])
      && var row := after.members[key];
         && row.isTrial == request.approvalIsTrial && row.membershipActive == !request.approvalIsTrial
         && row.tier == (match request.approvalTier case Some(t) => t case None => Standard)
         && row.prePubkey == request.prePubkey && row.x25519 == m.x25519
         && row.role == m.role.value && row.canContribute == m.canContribute && row.canModerate == m.canModerate
         && row.chainConfirmed && row.active && row.wallet == None
  }

  /** One who did not ask gets the plain row: a full, standard member with no key registered. */
  lemma AddInvited(db: Db, m: Msg)
    requires m.AddMember? && Key(m.orgId, m.pubkey) !in db.members && m.orgId in db.orgs && m.role.Some?
    requires NoneWaiting(db.joins, m.orgId, m.pubkey)
    ensures var after := Apply(db, m);
            var key := Key(m.orgId, m.pubkey);
            && OthersKept(db, after, key)
            && after.orgs == db.orgs && after.envelopes == db.envelopes && after.joins == db.joins
            && var row := after.members[key];
               && !row.isTrial && row.membershipActive && row.tier == Standard
               && row.prePubkey == None && row.x25519 == m.x25519
               && row.role == m.role.value && row.canContribute == m.canContribute && row.canModerate == m.canModerate
               && row.chainConfirmed && row.active && row.wallet == None
  {
    PickForemost(db.joins, m.orgId, m.pubkey);
  }

  /** One who has a row takes the message's role and capabilities, confirmed and active; only a trial keeps the
      member from being a full one. Trial, tier, wallet, keys and join requests stay. */
  lemma AddExisting(db: Db, m: Msg)
    requires m.AddMember? && Key(m.orgId, m.pubkey) in db.members && m.role.Some?
    ensures var after := Apply(db, m);
            var key := Key(m.orgId, m.pubkey);
            && OthersKept(db, after, key)
            && after.orgs == db.orgs && after.envelopes == db.envelopes && after.joins == db.joins
            && var (was, row) := (db.members[key], after.members[key]);
               && row.role == m.role.value && row.canContribute == m.canContribute && row.canModerate == m.canModerate
               && row.chainConfirmed && row.active && row.membershipActive == !was.isTrial
               && row.isTrial == was.isTrial && row.tier == was.tier && row.wallet == was.wallet
               && row.x25519 == was.x25519 && row.prePubkey == was.prePubkey
  {
  }

  /** An add-member changes the tables just when its role is one the table allows and, for a new member, the org
      is known and the foremost request's tier is one the table allows. */
  lemma AddRefusedExactly(db: Db, m: Msg)
    requires m.AddMember? && Key(m.orgId, m.pubkey) !in db.members
    ensures Apply(db, m) == db
            <==> (m.role == None || m.orgId !in db.orgs
                  || var i := Pick(db.joins, Key(m.orgId, m.pubkey));
                     i < |db.joins| && db.joins[i].approvalTier == Some(Rejected))
  {
    if m.role.Some? && m.orgId in db.orgs && Inserted(db, m).Some? {
      assert Key(m.orgId, m.pubkey) in Apply(db, m).members;
    }
  }

  // ----- the other messages -----

  /** Only the two capabilities and the confirmation of one row change, and no row appears. */
  lemma CapabilitiesExactly(db: Db, m: Msg)
    requires m.SetCapabilities?
    ensures var after := Apply(db, m);
            var key := Key(m.orgId, m.pubkey);
            && after.orgs == db.orgs && after.joins == db.joins && after.envelopes == db.envelopes
            && after.members.Keys == db.members.Keys
            && (forall k :: k in db.members && k != key ==> after.members[k] == db.members[k])
            && (key in db.members ==>
                  var (was, row) := (db.members[key], after.members[key]);
                  && row.canContribute == m.canContribute && row.canModerate == m.canModerate && row.chainConfirmed
                  && row.role == was.role && row.active == was.active && row.membershipActive == was.membershipActive
                  && row.isTrial == was.isTrial && row.tier == was.tier && row.wallet == was.wallet
                  && row.x25519 == was.x25519 && row.prePubkey == was.prePubkey)
  {
  }

  /** The row stays, inactive; the member's key envelope goes, and no other. */
  lemma RemoveExactly(db: Db, m: Msg)
    requires m.RemoveMember?
    ensures var after := Apply(db, m);
            var key := Key(m.orgId, m.pubkey);
            && after.orgs == db.orgs && after.joins == db.joins
            && (forall k :: k in after.envelopes <==> k in db.envelopes && k != key)
            && after.members.Keys == db.members.Keys
            && (forall k :: k in db.members && k != key ==> after.members[k] == db.members[k])
            && (key in db.members ==>
                  !after.members[key].active
                  && after.members[key].(active := db.members[key].active) == db.members[key])
  {
  }

  /** Another member of the org has the wallet. */
  ghost predicate WalletInUse(db: Db, m: Msg)
    requires m.TransferLeadership?
  {
    exists p :: p != m.newLeader && Key(m.orgId, p) in db.members && db.members[Key(m.orgId, p)].wallet == Some(m.wallet)
  }

  lemma WalletTakenExactly(db: Db, m: Msg)
    requires m.TransferLeadership?
    ensures WalletTaken(Demoted(db.members, m.orgId), m.orgId, m.newLeader, m.wallet) <==> WalletInUse(db, m)
  {
    var demoted := Demoted(db.members, m.orgId);
    if WalletInUse(db, m) {
      var p :| p != m.newLeader && Key(m.orgId, p) in db.members && db.members[Key(m.orgId, p)].wallet == Some(m.wallet);
      var k := Key(m.orgId, p);
      assert k in demoted && demoted[k].wallet == Some(m.wallet);
    }
    if WalletTaken(demoted, m.orgId, m.newLeader, m.wallet) {
      var k :| k in demoted && k.org == m.orgId && k.pubkey != m.newLeader && demoted[k].wallet == Some(m.wallet);
      assert k == Key(m.orgId, k.pubkey);
    }
  }

  /** Every leader of the org steps down. Then, unless another member has the wallet, the new leader, if it has a
      row, becomes the only one, with that wallet, and the org names it. Members keep everything else. */
  lemma TransferExactly(db: Db, m: Msg)
    requires m.TransferLeadership?
    ensures var after := Apply(db, m);
            var key := Key(m.orgId, m.newLeader);
            var done := !(key in db.members && WalletInUse(db, m));
            && after.joins == db.joins && after.envelopes == db.envelopes
            && after.members.Keys == db.members.Keys && after.orgs.Keys == db.orgs.Keys
            && (forall k :: k in db.members && k.org != m.orgId ==> after.members[k] == db.members[k])
            && (forall k :: k in db.members && k.org == m.orgId && !(done && k == key) ==>
                  after.members[k] == db.members[k].(role := Member))
            && (done && key in db.members ==>
                  after.members[key]
                  == db.members[key].(role := Leader, wallet := Some(m.wallet), chainConfirmed := true, active := true))
            && (forall o :: o in db.orgs ==>
                  after.orgs[o] == if done && o == m.orgId then db.orgs[o].(leader := m.newLeader) else db.orgs[o])
  {
    WalletTakenExactly(db, m);
    var demoted := Demoted(db.members, m.orgId);
    assert forall k :: k in db.members ==>
      demoted[k] == if k.org == m.orgId then db.members[k].(role := Member) else db.members[k];
    assert demoted.Keys == db.members.Keys;
    hide Demoted, Demote, WalletTaken, WalletInUse;
    TransferRows(db, m, demoted);
  }

  lemma TransferRows(db: Db, m: Msg, demoted: map<Key, MemberRow>)
    requires m.TransferLeadership? && demoted == Demoted(db.members, m.orgId)
    ensures var key := Key(m.orgId, m.newLeader);
            var after := Apply(db, m);
            after == if key in db.members && WalletTaken(demoted, m.orgId, m.newLeader, m.wallet) then db.(members := demoted)
                     else db.(members := Promoted(demoted, key, m.wallet),
                              orgs := if m.orgId !in db.orgs then db.orgs
                                      else db.orgs[m.orgId := db.orgs[m.orgId].(leader := m.newLeader)])
  {
    hide WalletTaken;
  }

  /** The org is closed and all its members inactive; other orgs and their members are left alone. */
  lemma CloseExactly(db: Db, m: Msg)
    requires m.CloseOrg?
    ensures var after := Apply(db, m);
            && after.joins == db.joins && after.envelopes == db.envelopes
            && after.members.Keys == db.members.Keys && after.orgs.Keys == db.orgs.Keys
            && (forall k :: k in db.members ==>
                  after.members[k] == if k.org == m.orgId then db.members[k].(active := false) else db.members[k])
            && (forall o :: o in db.orgs ==>
                  after.orgs[o] == if o == m.orgId then db.orgs[o].(closed := true) else db.orgs[o])
  {
  }

  // ----- a member's way in, over two messages -----

  /** A request approved for a trial makes a trial member of its owner, however often the add is repeated, and a
      transfer to that member is what first gives the row a wallet. */
  lemma TrialStaysTrial(db: Db, m: Msg, again: Msg)
    requires m.AddMember? && Key(m.orgId, m.pubkey) !in db.members && m.orgId in db.orgs && m.role.Some?
    requires again.AddMember? && again.orgId == m.orgId && again.pubkey == m.pubkey
    requires !NoneWaiting(db.joins, m.orgId, m.pubkey)
    requires forall i :: 0 <= i < |db.joins| && Waiting(db.joins[i], m.orgId, m.pubkey) ==>
               db.joins[i].approvalIsTrial && db.joins[i].approvalTier != Some(Rejected)
    ensures var after := Run(db, [m, again]);
            var key := Key(m.orgId, m.pubkey);
            && key in after.members && after.members[key].isTrial && !after.members[key].membershipActive
            && after.members[key].wallet == None
  {
    AddFromRequest(db, m);
    var once := Apply(db, m);
    var i :| Foremost(db.joins, m.orgId, m.pubkey, i) && TookRequest(db, once, m, i);
    assert [m, again][1..] == [again] && [again][1..] == [];
    assert Run(once, [again]) == Run(Apply(once, again), []);
    if again.role.Some? {
      AddExisting(once, again);
    }
  }
}
