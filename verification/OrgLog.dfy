/** The member, org, join-request and key-envelope tables, and what one chain message does to them,
    SQL statement by SQL statement (wevibe-hub/internal/chain/watcher.go).

    Timestamps are not kept. Each statement is atomic; a message is not, so a crash can fall between
    two of its statements. */
module OrgLog {
  import opened Wrappers

  /** Org ids, public keys, wallets and key material are only ever compared for equality, so numbers
      stand for their texts. */
  type Id = nat

  datatype Key = Key(org: Id, pubkey: Id)

  /** The role column's CHECK constraint allows these two. */
  datatype Role = Leader | Member

  /** The member_tier column's CHECK constraint allows the first three; `Rejected` is any other text. */
  datatype Tier = Trial | Standard | Premium | Rejected

  datatype MemberRow = MemberRow(
    role: Role,
    canContribute: bool,
    canModerate: bool,
    chainConfirmed: bool,
    active: bool,
    membershipActive: bool,
    isTrial: bool,
    tier: Tier,
    wallet: Option<Id>,
    x25519: Id,
    prePubkey: Option<Id>)

  datatype OrgRow = OrgRow(leader: Id, closed: bool)

  datatype JoinStatus = Pending | Confirming | Approved | Denied

  datatype JoinRequest = JoinRequest(
    orgId: Id,
    requester: Id,
    status: JoinStatus,
    requestedAt: int,
    prePubkey: Option<Id>,
    approvalTier: Option<Tier>,
    approvalIsTrial: bool)

  /** `joins` is in table order; a request's index stands for its id. */
  datatype Db = Db(
    members: map<Key, MemberRow>,
    orgs: map<Id, OrgRow>,
    joins: seq<JoinRequest>,
    envelopes: set<Key>)

  /** A role of `None` is text the CHECK constraint rejects. */
  datatype Msg =
    | AddMember(orgId: Id, pubkey: Id, x25519: Id, role: Option<Role>, canContribute: bool, canModerate: bool)
    | SetCapabilities(orgId: Id, pubkey: Id, canContribute: bool, canModerate: bool)
    | RemoveMember(orgId: Id, pubkey: Id)
    | TransferLeadership(orgId: Id, newLeader: Id, wallet: Id)
    | CloseOrg(orgId: Id)
    | Unrelated

  // ----- the request a new member is promoted from -----

  predicate OpenFor(r: JoinRequest, key: Key) {
    Key(r.orgId, r.requester) == key && (r.status == Confirming || r.status == Pending)
  }

  /** Confirming before pending, newest first. */
  predicate Better(a: JoinRequest, b: JoinRequest) {
    if (a.status == Confirming) != (b.status == Confirming) then a.status == Confirming
    else a.requestedAt > b.requestedAt
  }

  /** The best open request, or the number of requests; among equals, the first in the table. */
  function Pick(joins: seq<JoinRequest>, key: Key): (r: nat)
    ensures r <= |joins|
    ensures r < |joins| ==> OpenFor(joins[r], key)
  {
    if joins == [] then 0
    else
      var rest := 1 + Pick(joins[1..], key);
      if !OpenFor(joins[0], key) then rest
      else if rest < |joins| && Better(joins[rest], joins[0]) then rest
      else 0
  }

  // ----- the statements -----

  function Updated(row: MemberRow, m: Msg): MemberRow
    requires m.AddMember? && m.role.Some?
  {
    row.(role := m.role.value, canContribute := m.canContribute, canModerate := m.canModerate,
         chainConfirmed := true, active := true, membershipActive := !row.isTrial)
  }

  function TierOf(r: JoinRequest): Tier {
    if r.approvalTier.Some? then r.approvalTier.value else Standard
  }

  function FromRequest(m: Msg, r: JoinRequest): MemberRow
    requires m.AddMember? && m.role.Some?
  {
    MemberRow(m.role.value, m.canContribute, m.canModerate, true, true, !r.approvalIsTrial, r.approvalIsTrial,
              TierOf(r), None, m.x25519, r.prePubkey)
  }

  function Invited(m: Msg): MemberRow
    requires m.AddMember? && m.role.Some?
  {
    MemberRow(m.role.value, m.canContribute, m.canModerate, true, true, true, false, Standard, None, m.x25519, None)
  }

  /** The row an add-member inserts where there was none, if every constraint lets it. */
  function Inserted(db: Db, m: Msg): Option<MemberRow>
    requires m.AddMember?
  {
    var i := Pick(db.joins, Key(m.orgId, m.pubkey));
    if m.orgId !in db.orgs || m.role.None? then None
    else if i == |db.joins| then Some(Invited(m))
    else if TierOf(db.joins[i]) == Rejected then None
    else Some(FromRequest(m, db.joins[i]))
  }

  /** The add-member goes through a join request, so it takes two statements. */
  predicate Promotes(db: Db, m: Msg) {
    && m.AddMember?
    && Key(m.orgId, m.pubkey) !in db.members
    && Pick(db.joins, Key(m.orgId, m.pubkey)) < |db.joins|
    && Inserted(db, m).Some?
  }

  function Demote(row: MemberRow): MemberRow {
    if row.role == Leader then row.(role := Member) else row
  }

  function Demoted(members: map<Key, MemberRow>, orgId: Id): map<Key, MemberRow> {
    map k | k in members :: if k.org == orgId then Demote(members[k]) else members[k]
  }

  function Deactivated(members: map<Key, MemberRow>, orgId: Id): map<Key, MemberRow> {
    map k | k in members :: if k.org == orgId then members[k].(active := false) else members[k]
  }

  /** `UNIQUE (org_id, wallet_address)`: another member of the org has this wallet. */
  predicate WalletTaken(members: map<Key, MemberRow>, orgId: Id, pubkey: Id, wallet: Id) {
    exists k :: k in members && k.org == orgId && k.pubkey != pubkey && members[k].wallet == Some(wallet)
  }

  function ExecAdd(db: Db, m: Msg, cut: nat): Db
    requires m.AddMember? && cut > 0
  {
    var key := Key(m.orgId, m.pubkey);
    if key in db.members then
      if m.role.None? then db else db.(members := db.members[key := Updated(db.members[key], m)])
    else if Inserted(db, m).None? then db
    else
      var i := Pick(db.joins, key);
      Db(db.members[key := Inserted(db, m).value],
         db.orgs,
         if cut == 1 || i == |db.joins| then db.joins else db.joins[i := db.joins[i].(status := Approved)],
         db.envelopes)
  }

  function ExecCapabilities(db: Db, m: Msg): Db
    requires m.SetCapabilities?
  {
    var key := Key(m.orgId, m.pubkey);
    if key !in db.members then db
    else
      var row := db.members[key];
      db.(members := db.members[key := row.(
                                 canContribute := m.canContribute, canModerate := m.canModerate, chainConfirmed := true)])
  }

  function ExecRemove(db: Db, m: Msg, cut: nat): Db
    requires m.RemoveMember? && cut > 0
  {
    var key := Key(m.orgId, m.pubkey);
    Db(if key !in db.members then db.members else db.members[key := db.members[key].(active := false)],
       db.orgs, db.joins,
       if cut == 1 then db.envelopes else db.envelopes - {key})
  }

  function Promoted(members: map<Key, MemberRow>, key: Key, wallet: Id): map<Key, MemberRow> {
    if key !in members then members
    else members[key := members[key].(role := Leader, wallet := Some(wallet), chainConfirmed := true, active := true)]
  }

  function ExecTransfer(db: Db, m: Msg, cut: nat): Db
    requires m.TransferLeadership? && cut > 0
  {
    var key := Key(m.orgId, m.newLeader);
    var demoted := Demoted(db.members, m.orgId);
    if cut == 1 || (key in db.members && WalletTaken(demoted, m.orgId, m.newLeader, m.wallet)) then
      db.(members := demoted)
    else
      Db(Promoted(demoted, key, m.wallet),
         if cut == 2 || m.orgId !in db.orgs then db.orgs
         else db.orgs[m.orgId := db.orgs[m.orgId].(leader := m.newLeader)],
         db.joins, db.envelopes)
  }

  function ExecClose(db: Db, m: Msg, cut: nat): Db
    requires m.CloseOrg? && cut > 0
  {
    Db(if cut == 1 then db.members else Deactivated(db.members, m.orgId),
       if m.orgId !in db.orgs then db.orgs else db.orgs[m.orgId := db.orgs[m.orgId].(closed := true)],
       db.joins, db.envelopes)
  }

  /** The tables after the first `cut` statements of a message's handler. Three reach the end of every
      handler. A statement that violates a constraint changes nothing and ends the handler. */
  function Exec(db: Db, m: Msg, cut: nat): Db {
    if cut == 0 then db
    else match m
      case AddMember(_, _, _, _, _, _) => ExecAdd(db, m, cut)
      case SetCapabilities(_, _, _, _) => ExecCapabilities(db, m)
      case RemoveMember(_, _) => ExecRemove(db, m, cut)
      case TransferLeadership(_, _, _) => ExecTransfer(db, m, cut)
      case CloseOrg(_) => ExecClose(db, m, cut)
      case Unrelated => db
  }

  function Apply(db: Db, m: Msg): Db {
    Exec(db, m, 3)
  }

  function Run(db: Db, log: seq<Msg>): Db
    decreases |log|
  {
    if log == [] then db else Run(Apply(db, log[0]), log[1..])
  }
}
