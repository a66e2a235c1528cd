/** The watcher: block processing, catch-up after a restart, and the org bookkeeping
    (wevibe-hub/internal/chain/watcher.go). */
module ChainWatcher {
  import opened OrgLog
  import opened OrgReplay
  import opened OrgConvergence
  import opened OrgOwnership
  import opened Wrappers

  datatype Tx = Undecodable | Decoded(msgs: seq<Msg>)

  datatype Block = Block(height: int, txs: seq<Tx>)

  /** A result is missing, or carries the code the transaction ended with. */
  type Results = seq<Option<nat>>

  /** What the node answers when asked for a height. */
  datatype Answer =
    | NoBlock
    | NoResults
    | Answer(block: Option<Block>, results: Option<Results>)

  /** The messages of the transactions that succeeded and decode. */
  function BlockLog(txs: seq<Tx>, results: Results): seq<Msg>
    requires |txs| == |results|
  {
    if txs == [] then []
    else GoodMsgs(txs[0], results[0]) + BlockLog(txs[1..], results[1..])
  }

  predicate Complete(a: Answer) {
    && a.Answer? && a.block.Some? && a.results.Some?
    && |a.block.value.txs| == |a.results.value|
  }

  function LogOf(a: Answer): seq<Msg> {
    if Complete(a) then BlockLog(a.block.value.txs, a.results.value) else []
  }

  /** The node's answers, and whether storing a height succeeds. */
  datatype World = World(answer: int -> Answer, stores: int -> bool) {
    /** The node returns the block it was asked for. */
    ghost predicate Faithful() {
      forall h :: Complete(answer(h)) ==> answer(h).block.value.height == h
    }

    predicate Handles(h: int) {
      Complete(answer(h)) && stores(h)
    }
  }

  /** The messages at heights `lo` to `hi`, in order. */
  function Between(w: World, lo: int, hi: int): seq<Msg>
    decreases hi - lo
  {
    if hi < lo then [] else Between(w, lo, hi - 1) + LogOf(w.answer(hi))
  }

  lemma RunTwo(db: Db, a: seq<Msg>, b: seq<Msg>, c: seq<Msg>)
    requires c == a + b
    ensures Run(Run(db, a), b) == Run(db, c)
  {
    RunSplit(db, a, b);
  }

  function GoodMsgs(tx: Tx, result: Option<nat>): seq<Msg> {
    if result == Some(0) && tx.Decoded? then tx.msgs else []
  }

  lemma {:induction false} LogSnoc(txs: seq<Tx>, results: Results, i: nat)
    requires |txs| == |results| && i < |txs|
    ensures BlockLog(txs[..i + 1], results[..i + 1])
         == BlockLog(txs[..i], results[..i]) + GoodMsgs(txs[i], results[i])
  {
    hide GoodMsgs;
    if i == 0 {
      assert txs[..1][1..] == [] && results[..1][1..] == [];
    } else {
      LogSnoc(txs[1..], results[1..], i - 1);
      assert txs[..i + 1][1..] == txs[1..][..i] && txs[..i][1..] == txs[1..][..i - 1];
      assert results[..i + 1][1..] == results[1..][..i] && results[..i][1..] == results[1..][..i - 1];
    }
  }

  /** A transaction that decodes and whose result is zero carries the message. */
  ghost predicate Carried(txs: seq<Tx>, results: Results, m: Msg)
    requires |txs| == |results|
  {
    exists i :: 0 <= i < |txs| && txs[i].Decoded? && results[i] == Some(0) && m in txs[i].msgs
  }

  lemma CarriedTail(txs: seq<Tx>, results: Results, m: Msg)
    requires |txs| == |results| > 0
    ensures Carried(txs, results, m)
            <==> (txs[0].Decoded? && results[0] == Some(0) && m in txs[0].msgs) || Carried(txs[1..], results[1..], m)
  {
    if Carried(txs[1..], results[1..], m) {
      var i :| 0 <= i < |txs[1..]| && txs[1..][i].Decoded? && results[1..][i] == Some(0) && m in txs[1..][i].msgs;
      assert txs[i + 1].Decoded? && results[i + 1] == Some(0) && m in txs[i + 1].msgs;
    }
  }

  /** Just the messages of such transactions are applied. */
  lemma {:induction false} BlockLogExactly(txs: seq<Tx>, results: Results)
    requires |txs| == |results|
    ensures forall m :: m in BlockLog(txs, results) <==> Carried(txs, results, m)
  {
    if txs != [] {
      BlockLogExactly(txs[1..], results[1..]);
      forall m ensures m in BlockLog(txs, results) <==> Carried(txs, results, m)
      {
        CarriedTail(txs, results, m);
      }
    }
  }

  /** The messages before, of and after transaction `i`. */
  function LogAround(txs: seq<Tx>, results: Results, i: nat): seq<Msg>
    requires |txs| == |results| && i < |txs|
  {
    BlockLog(txs[..i], results[..i])
    + (if txs[i].Decoded? && results[i] == Some(0) then txs[i].msgs else [])
    + BlockLog(txs[i + 1..], results[i + 1..])
  }

  /** They come in the block's order, and each transaction's in its own. */
  lemma {:induction false} LogSplit(txs: seq<Tx>, results: Results, i: nat)
    requires |txs| == |results| && i < |txs|
    ensures BlockLog(txs, results) == LogAround(txs, results, i)
  {
    if i == 0 {
      assert BlockLog(txs[..0], results[..0]) == [];
    } else {
      var p := i - 1;
      LogSplit(txs[1..], results[1..], p);
      assert txs[..i][1..] == txs[1..][..p] && results[..i][1..] == results[1..][..p];
      assert txs[1..][p + 1..] == txs[i + 1..] && results[1..][p + 1..] == results[i + 1..];
      assert BlockLog(txs[..i], results[..i]) == GoodMsgs(txs[0], results[0]) + BlockLog(txs[1..][..p], results[1..][..p]);
    }
  }

  class Watcher {
    var members: map<Key, MemberRow>
    var orgs: map<Id, OrgRow>
    var joins: seq<JoinRequest>
    var envelopes: set<Key>
    var lastSeen: int

    ghost function Tables(): Db
      reads this
    {
      Db(members, orgs, joins, envelopes)
    }

    constructor (db: Db, height: int)
      ensures Tables() == db && lastSeen == height
    {
      members, orgs, joins, envelopes, lastSeen := db.members, db.orgs, db.joins, db.envelopes, height;
    }

    method ProcessSetMemberCapabilities(orgId: Id, pubkey: Id, canContribute: bool, canModerate: bool)
      modifies `members
      ensures Tables() == Apply(old(Tables()), SetCapabilities(orgId, pubkey, canContribute, canModerate))
    {
      var key := Key(orgId, pubkey);
      if key in members {
        members := members[key := members[key].(
                               canContribute := canContribute, canModerate := canModerate, chainConfirmed := true)];
      }
    }

    method ProcessRemoveMember(orgId: Id, pubkey: Id)
      modifies `members, `envelopes
      ensures Tables() == Apply(old(Tables()), RemoveMember(orgId, pubkey))
    {
      var key := Key(orgId, pubkey);
      if key in members {
        members := members[key := members[key].(active := false)];
      }
      envelopes := envelopes - {key};
    }

    /** The open request a new member is promoted from: one pass over the table. */
    method FindRequest(key: Key) returns (r: nat)
      ensures r == Pick(joins, key)
    {
      r := |joins|;
      var i := |joins|;
      assert joins[i..] == [];
      while i > 0
        invariant i <= |joins| && r == i + Pick(joins[i..], key)
      {
        i := i - 1;
        assert joins[i..][0] == joins[i] && joins[i..][1..] == joins[i + 1..];
        var best := if r < |joins| then Some(joins[r]) else None;
        assert r < |joins| ==> joins[i..][r - i] == joins[r];
        if OpenFor(joins[i], key) && (best.None? || !Better(best.value, joins[i])) {
          r := i;
        }
      }
    }

    method ProcessAddMember(orgId: Id, pubkey: Id, x25519: Id, role: Option<Role>,
                            canContribute: bool, canModerate: bool)
      modifies `members, `joins
      ensures Tables() == Apply(old(Tables()), AddMember(orgId, pubkey, x25519, role, canContribute, canModerate))
    {
      var key := Key(orgId, pubkey);
      if key in members {
        if role.Some? {
          var row := members[key];
          members := members[key := row.(
                                 role := role.value, canContribute := canContribute, canModerate := canModerate,
                                 chainConfirmed := true, active := true, membershipActive := !row.isTrial)];
        }
        return;
      }
      var i := FindRequest(key);
      if orgId !in orgs || role.None? {
        return;
      }
      if i < |joins| {
        var request := joins[i];
        var tier := if request.approvalTier.Some? then request.approvalTier.value else Standard;
        if tier == Rejected {
          return;
        }
        members := members[key := MemberRow(role.value, canContribute, canModerate, true, true,
                                            !request.approvalIsTrial, request.approvalIsTrial, tier, None, x25519,
                                            request.prePubkey)];
        joins := joins[i := request.(status := Approved)];
        return;
      }
      members := members[key := MemberRow(role.value, canContribute, canModerate, true, true, true, false, Standard,
                                          None, x25519, None)];
    }

    method ProcessTransferLeadership(orgId: Id, newLeader: Id, wallet: Id)
      modifies `members, `orgs
      ensures Tables() == Apply(old(Tables()), TransferLeadership(orgId, newLeader, wallet))
    {
      members := Demoted(members, orgId);
      var key := Key(orgId, newLeader);
      if key in members {
        if WalletTaken(members, orgId, newLeader, wallet) {
          return;
        }
        members := members[key := members[key].(
                               role := Leader, wallet := Some(wallet), chainConfirmed := true, active := true)];
      }
      if orgId in orgs {
        orgs := orgs[orgId := orgs[orgId].(leader := newLeader)];
      }
    }

    method ProcessCloseOrg(orgId: Id)
      modifies `members, `orgs
      ensures Tables() == Apply(old(Tables()), CloseOrg(orgId))
    {
      if orgId in orgs {
        orgs := orgs[orgId := orgs[orgId].(closed := true)];
      }
      members := Deactivated(members, orgId);
    }

    method ProcessMsg(m: Msg)
      modifies this
      ensures Tables() == Apply(old(Tables()), m) && lastSeen == old(lastSeen)
    {
      match m
      case AddMember(orgId, pubkey, x25519, role, c, d) => ProcessAddMember(orgId, pubkey, x25519, role, c, d);
      case SetCapabilities(orgId, pubkey, c, d) => ProcessSetMemberCapabilities(orgId, pubkey, c, d);
      case RemoveMember(orgId, pubkey) => ProcessRemoveMember(orgId, pubkey);
      case TransferLeadership(orgId, newLeader, wallet) => ProcessTransferLeadership(orgId, newLeader, wallet);
      case CloseOrg(orgId) => ProcessCloseOrg(orgId);
      case Unrelated =>
    }

    method ProcessTx(tx: Tx) returns (ok: bool)
      modifies this
      ensures ok == tx.Decoded? && lastSeen == old(lastSeen)
      ensures Tables() == Run(old(Tables()), if tx.Decoded? then tx.msgs else [])
    {
      if tx.Undecodable? {
        return false;
      }
      var i := 0;
      while i < |tx.msgs|
        invariant i <= |tx.msgs| && lastSeen == old(lastSeen)
        invariant Tables() == Run(old(Tables()), tx.msgs[..i])
      {
        ProcessMsg(tx.msgs[i]);
        RunSnoc(old(Tables()), tx.msgs, i);
        i := i + 1;
      }
      assert tx.msgs[..i] == tx.msgs;
      return true;
    }

    method ProcessResult(tx: Tx, result: Option<nat>)
      modifies this
      ensures lastSeen == old(lastSeen) && Tables() == Run(old(Tables()), GoodMsgs(tx, result))
    {
      if result == Some(0) {
        var decoded := ProcessTx(tx);
      }
    }

    /** A block without its results is refused untouched. Otherwise every message of every good
        transaction is applied, in order, and only then is the height stored. */
    method ProcessBlock(block: Option<Block>, results: Results, stores: bool) returns (ok: bool)
      modifies this
      ensures ok <==> block.Some? && |block.value.txs| == |results| && stores
      ensures lastSeen == if ok then block.value.height else old(lastSeen)
      ensures Tables() == if block.Some? && |block.value.txs| == |results|
                          then Run(old(Tables()), BlockLog(block.value.txs, results)) else old(Tables())
    {
      if block.None? || |results| != |block.value.txs| {
        return false;
      }
      var txs := block.value.txs;
      var i := 0;
      assert Run(Tables(), BlockLog(txs[..0], results[..0])) == Tables();
      hide Run, BlockLog, GoodMsgs;
      while i < |txs|
        invariant i <= |txs| && lastSeen == old(lastSeen)
        invariant Tables() == Run(old(Tables()), BlockLog(txs[..i], results[..i]))
      {
        LogSnoc(txs, results, i);
        ghost var before := BlockLog(txs[..i], results[..i]);
        RunTwo(old(Tables()), before, GoodMsgs(txs[i], results[i]), BlockLog(txs[..i + 1], results[..i + 1]));
        ProcessResult(txs[i], results[i]);
        i := i + 1;
      }
      assert txs[..i] == txs && results[..i] == results;
      if stores {
        lastSeen := block.value.height;
      }
      return stores;
    }

    /** Heights `lastSeen + 1` to the node's latest, once each and in order. On the first height that
        cannot be fetched, processed or stored, catch-up stops with the height before it as the last seen;
        the messages of the height itself are applied exactly when only storing it failed. */
    method CatchUp(status: Option<int>, w: World) returns (ok: bool, ghost stop: int)
      requires w.Faithful()
      modifies this
      ensures status.None? ==> !ok && Tables() == old(Tables()) && lastSeen == old(lastSeen)
      ensures status.Some? ==> (ok <==> forall h :: old(lastSeen) < h <= status.value ==> w.Handles(h))
      ensures ok ==> lastSeen == (if status.value <= old(lastSeen) then old(lastSeen) else status.value)
      ensures ok ==> Tables() == Run(old(Tables()), Between(w, old(lastSeen) + 1, status.value))
      ensures status.Some? && !ok ==>
        && old(lastSeen) < stop <= status.value && !w.Handles(stop)
        && (forall h :: old(lastSeen) < h < stop ==> w.Handles(h))
        && lastSeen == stop - 1
        && Tables() == Run(old(Tables()), Between(w, old(lastSeen) + 1, stop))
    {
      stop := 0;
      if status.None? {
        return false, stop;
      }
      var current := status.value;
      if current <= lastSeen {
        return true, stop;
      }
      ghost var first := lastSeen + 1;
      var h := lastSeen + 1;
      while h <= current
        invariant first <= h <= current + 1 && lastSeen == h - 1 && first == old(lastSeen) + 1
        invariant forall g :: first <= g < h ==> w.Handles(g)
        invariant Tables() == Run(old(Tables()), Between(w, first, h - 1))
      {
        RunTwo(old(Tables()), Between(w, first, h - 1), LogOf(w.answer(h)), Between(w, first, h));
        stop := h;
        var answer := w.answer(h);
        if !answer.Answer? || answer.results.None? {
          assert !w.Handles(h);
          return false, stop;
        }
        var processed := ProcessBlock(answer.block, answer.results.value, w.stores(h));
        if !processed {
          assert !w.Handles(h);
          return false, stop;
        }
        h := h + 1;
      }
      return true, stop;
    }
  }

  // ----- catching up after a failure or a crash -----

  lemma {:induction false} BetweenSplit(w: World, a: int, b: int, c: int)
    requires a <= b <= c + 1
    ensures Between(w, a, c) == Between(w, a, b - 1) + Between(w, b, c)
    decreases c - b + 1
  {
    if b <= c {
      BetweenSplit(w, a, b, c - 1);
    }
  }

  /** The hub dies inside block `h`, `k` messages and `cut` statements in; the restart finds `h - 1`
      stored and catches up to `top`. Short of the torn spot, the tables are those of a hub that never
      stopped exactly when the catch-up promotes each row last with the transfer that did in the first pass,
      and names no other leader last. It is enough that block `h` does so. */
  lemma CrashRecovery(db: Db, w: World, from: int, h: int, top: int, k: nat, cut: nat)
    requires WalletsUnique(db) && from <= h <= top && k < |LogOf(w.answer(h))|
    requires !Torn(Run(db, Between(w, from, h - 1)), LogOf(w.answer(h)), k, cut)
    ensures var start := Run(db, Between(w, from, h - 1));
            var died := Crashed(start, LogOf(w.answer(h)), k, cut);
            && (SamePromotions(start, died, Between(w, h, top)) <==>
                Run(died, Between(w, h, top)) == Run(db, Between(w, from, top)))
            && (SamePromotions(start, died, LogOf(w.answer(h))) ==>
                Run(died, Between(w, h, top)) == Run(db, Between(w, from, top)))
  {
    hide Run, SamePromotions;
    var before, log, after := Between(w, from, h - 1), LogOf(w.answer(h)), Between(w, h + 1, top);
    BetweenSplit(w, from, h, top);
    BetweenSplit(w, h, h + 1, top);
    assert Between(w, h, h - 1) == [];
    assert Between(w, h, h) == log;
    var start := Run(db, before);
    var died := Crashed(start, log, k, cut);
    RunKeepsUnique(db, before);
    RunSplit(db, before, log + after);
    assert (log + after)[..k] == log[..k] && (log + after)[k] == log[k];
    assert died == Crashed(start, log + after, k, cut);
    ConvergesExactly(start, log + after, k, cut);
    ConvergesExactly(start, log, k, cut);
    RunSplit(died, log, after);
    RunSplit(start, log, after);
  }

  /** With one owner per wallet, block `h` alone decides: it is enough that no transfer in it comes before its
      member's row. */
  lemma OwnedCrashRecovery(db: Db, w: World, from: int, h: int, top: int, k: nat, cut: nat, owner: Owner)
    requires from <= h <= top && k < |LogOf(w.answer(h))|
    requires Owned(db, Between(w, from, top), owner)
    requires var start := Run(db, Between(w, from, h - 1));
             NoEarlyTransfer(start, LogOf(w.answer(h))) && !Torn(start, LogOf(w.answer(h)), k, cut)
    ensures var died := Crashed(Run(db, Between(w, from, h - 1)), LogOf(w.answer(h)), k, cut);
            Run(died, Between(w, h, top)) == Run(db, Between(w, from, top))
  {
    hide Run;
    var before, log, after := Between(w, from, h - 1), LogOf(w.answer(h)), Between(w, h + 1, top);
    BetweenSplit(w, from, h, top);
    BetweenSplit(w, h, h + 1, top);
    assert Between(w, h, h - 1) == [];
    assert Between(w, h, h) == log;
    OwnedParts(before, log + after, owner);
    OwnedParts(log, after, owner);
    RunKeepsOwned(db, before, owner);
    OwnedPromotions(Run(db, before), log, k, cut, owner);
    OwnedIsUnique(db, owner);
    CrashRecovery(db, w, from, h, top, k, cut);
  }

  ghost predicate AgreeOn(w: World, again: World, lo: int, hi: int) {
    forall g :: lo <= g <= hi ==> LogOf(w.answer(g)) == LogOf(again.answer(g))
  }

  /** A catch-up that failed at height `h`, then one that succeeds, leaves what one successful catch-up
      would have, exactly when handling block `h` twice disturbs no promotion on the way to `top`. */
  lemma RetriedCatchUp(db: Db, w: World, again: World, from: int, h: int, top: int)
    requires WalletsUnique(db) && from <= h <= top
    requires AgreeOn(w, again, from, h - 1)
    requires LogOf(w.answer(h)) == LogOf(again.answer(h)) || LogOf(w.answer(h)) == []
    ensures SamePromotions(Run(db, Between(again, from, h - 1)), Run(db, Between(w, from, h)), Between(again, h, top))
       <==> Run(Run(db, Between(w, from, h)), Between(again, h, top)) == Run(db, Between(again, from, top))
  {
    hide Run, SamePromotions, Torn;
    SameBetween(w, again, from, h - 1);
    var before, log := Between(w, from, h - 1), LogOf(w.answer(h));
    BetweenSplit(again, from, h, top);
    RunSplit(db, before, Between(again, h, top));
    RunSplit(db, before, log);
    if log == [] {
      assert Between(w, from, h) == before;
      ItselfSame(Run(db, before), Between(again, h, top));
    } else {
      var start, last := Run(db, before), |log| - 1;
      assert log[..last + 1] == log;
      RunSnoc(start, log, last);
      CrashEnds(start, log, last);
      NeverTorn(start, log, last);
      CrashRecovery(db, again, from, h, top, last, 3);
    }
  }

  lemma ItselfSame(db: Db, log: seq<Msg>)
    ensures SamePromotions(db, db, log)
  {
  }

  lemma {:induction false} SameBetween(w: World, again: World, lo: int, hi: int)
    requires AgreeOn(w, again, lo, hi)
    ensures Between(w, lo, hi) == Between(again, lo, hi)
    decreases hi - lo
  {
    if lo <= hi {
      SameBetween(w, again, lo, hi - 1);
    }
  }
}
