/** The message encoders (wevibe-dashboard/lib/chain-client.ts): what each builder is given is what
    the reference reader of its bytes sees. Strings are their UTF-8 bytes. */
module ChainMessages {
  import opened WireFormat
  import Strings = Text
  import opened Wrappers

  lemma First(value: Bytes) returns (r: Received, w: Wire)
    ensures w == EMPTY.Text(0x0a, value) && w.Says(r) && r == map[1 := [Text(value)]]
  {
    SaysNothing();
    SayText(EMPTY, map[], 1, value);
    AddedNew(map[], 1, Text(value));
    r, w := map[1 := [Text(value)]], EMPTY.Text(0x0a, value);
  }

  lemma ThenText(before: Wire, was: Received, number: nat, value: Bytes) returns (r: Received, w: Wire)
    requires before.Says(was) && 0 < number < 16 && number !in was
    ensures w == before.Text(8 * number + 2, value) && w.Says(r) && r == was[number := [Text(value)]]
  {
    SayText(before, was, number, value);
    AddedNew(was, number, Text(value));
    r, w := was[number := [Text(value)]], before.Text(8 * number + 2, value);
  }

  lemma ThenNum(before: Wire, was: Received, number: nat, value: int) returns (r: Received, w: Wire)
    requires before.Says(was) && 0 < number < 16 && number !in was
    ensures w == before.Num(8 * number, value) && w.Says(r) && r == was[number := [Num(Sent(value))]]
  {
    SayNum(before, was, number, value);
    AddedNew(was, number, Num(Sent(value)));
    r, w := was[number := [Num(Sent(value))]], before.Num(8 * number, value);
  }

  function Flag(value: bool): nat {
    if value then 1 else 0
  }

  lemma ThenBool(before: Wire, was: Received, number: nat, value: bool) returns (r: Received, w: Wire)
    requires before.Says(was) && 0 < number < 16 && number !in was
    ensures w == before.Bool(8 * number, value) && w.Says(r) && r == was[number := [Num(Flag(value))]]
  {
    SayBool(before, was, number, value);
    AddedNew(was, number, Num(Flag(value)));
    r, w := was[number := [Num(Flag(value))]], before.Bool(8 * number, value);
  }

  /** Appending a field with a number above all before it. */
  lemma AddText(before: Wire, was: Received, number: nat, value: Bytes) returns (r: Received, w: Wire)
    requires before.Says(was) && 0 < number < 16 && Below(was, number)
    ensures w == before.Text(8 * number + 2, value) && w.Says(r)
    ensures TextAt(r, number) == value && Keeps(r, was, number) && Below(r, number + 1)
  {
    hide Wire.Says, Keeps;
    r, w := ThenText(before, was, number, value);
    KeepsAdded(was, number, Text(value));
  }

  lemma AddNum(before: Wire, was: Received, number: nat, value: int) returns (r: Received, w: Wire)
    requires before.Says(was) && 0 < number < 16 && Below(was, number)
    ensures w == before.Num(8 * number, value) && w.Says(r)
    ensures NumAt(r, number) == Sent(value) && Keeps(r, was, number) && Below(r, number + 1)
  {
    hide Wire.Says, Keeps;
    r, w := ThenNum(before, was, number, value);
    KeepsAdded(was, number, Num(Sent(value)));
  }

  lemma AddBool(before: Wire, was: Received, number: nat, value: bool) returns (r: Received, w: Wire)
    requires before.Says(was) && 0 < number < 16 && Below(was, number)
    ensures w == before.Bool(8 * number, value) && w.Says(r)
    ensures BoolAt(r, number) == value && Keeps(r, was, number) && Below(r, number + 1)
  {
    hide Wire.Says, Keeps;
    r, w := ThenBool(before, was, number, value);
    KeepsAdded(was, number, Num(Flag(value)));
  }

  lemma AddNothing() returns (r: Received)
    ensures EMPTY.Says(r) && Below(r, 1)
    ensures forall n :: TextAt(r, n) == [] && NumAt(r, n) == 0
  {
    SaysNothing();
    r := map[];
  }

  lemma BelowMore(r: Received, limit: nat)
    requires Below(r, limit)
    ensures Below(r, limit + 1)
  {
  }

  lemma NoneBelow(r: Received, number: nat)
    requires Below(r, number)
    ensures NumAt(r, number) == 0 && TextAt(r, number) == []
  {
  }

  lemma SentExactly(v: int)
    ensures Sent(v) == v <==> v >= 0
  {
  }

  // ----- fixed messages -----

  function BuildCloseOrg(signer: Bytes, orgId: Bytes): Wire {
    EMPTY.Text(0x0a, signer).Text(0x12, orgId)
  }

  function BuildRemoveMember(signer: Bytes, orgId: Bytes, pubkey: Bytes): Wire {
    EMPTY.Text(0x0a, signer).Text(0x12, orgId).Text(0x1a, pubkey)
  }

  function BuildSetServingKey(signer: Bytes, orgId: Bytes, newServingKey: Bytes): Wire {
    EMPTY.Text(0x0a, signer).Text(0x12, orgId).Text(0x1a, newServingKey)
  }

  function BuildTransferLeadership(signer: Bytes, orgId: Bytes, newLeader: Bytes, newLeaderWallet: Bytes): Wire {
    EMPTY.Text(0x0a, signer).Text(0x12, orgId).Text(0x1a, newLeader).Text(0x22, newLeaderWallet)
  }

  /** Fields 1 to 4, all texts. */
  datatype Texts = Texts(first: Bytes, second: Bytes, third: Bytes, fourth: Bytes)

  function ReadTexts(bytes: Bytes): Option<Texts> {
    match Receive(bytes)
    case None => None
    case Some(r) => Some(Texts(TextAt(r, 1), TextAt(r, 2), TextAt(r, 3), TextAt(r, 4)))
  }

  /** The messages of texts only; a field that is not sent reads as empty. */
  lemma TextMessagesRead(signer: Bytes, orgId: Bytes, third: Bytes, fourth: Bytes)
    ensures ReadTexts(BuildCloseOrg(signer, orgId).bytes) == Some(Texts(signer, orgId, [], []))
    ensures ReadTexts(BuildRemoveMember(signer, orgId, third).bytes) == Some(Texts(signer, orgId, third, []))
    ensures ReadTexts(BuildSetServingKey(signer, orgId, third).bytes) == Some(Texts(signer, orgId, third, []))
    ensures ReadTexts(BuildTransferLeadership(signer, orgId, third, fourth).bytes)
         == Some(Texts(signer, orgId, third, fourth))
  {
    hide Receive, Wire.Says, Wire.Text, TextAt, Below;
    var r0 := AddNothing();
    var r1, w1 := AddText(EMPTY, r0, 1, signer);
    var r2, w2 := AddText(w1, r1, 2, orgId);
    var r3, w3 := AddText(w2, r2, 3, third);
    var r4, w4 := AddText(w3, r3, 4, fourth);
    Delivered(w2, r2);
    Delivered(w3, r3);
    Delivered(w4, r4);
    NoneBelow(r2, 3);
    BelowMore(r2, 3);
    NoneBelow(r2, 4);
    NoneBelow(r3, 4);
  }

  datatype AddMember = AddMember(
    signer: Bytes, orgId: Bytes, pubkey: Bytes, role: Bytes, x25519: Bytes, canContribute: bool,
    canModerate: bool)

  function BuildAddMember(m: AddMember): Wire {
    EMPTY
    .Text(0x0a, m.signer)
    .Text(0x12, m.orgId)
    .Text(0x1a, m.pubkey)
    .Text(0x22, m.role)
    .Text(0x2a, m.x25519)
    .Bool(0x30, m.canContribute)
    .Bool(0x38, m.canModerate)
  }

  function ReadAddMember(bytes: Bytes): Option<AddMember> {
    match Receive(bytes)
    case None => None
    case Some(r) =>
      Some(AddMember(
        TextAt(r, 1), TextAt(r, 2), TextAt(r, 3), TextAt(r, 4), TextAt(r, 5), BoolAt(r, 6), BoolAt(r, 7)))
  }

  lemma AddMemberReads(m: AddMember)
    ensures ReadAddMember(BuildAddMember(m).bytes) == Some(m)
  {
    hide Receive, Sent, Wire.Says, Wire.Text, Wire.Num, Wire.Bool, TextAt, NumAt, Below;
    var r0 := AddNothing();
    var r1, w1 := AddText(EMPTY, r0, 1, m.signer);
    var r2, w2 := AddText(w1, r1, 2, m.orgId);
    var r3, w3 := AddText(w2, r2, 3, m.pubkey);
    var r4, w4 := AddText(w3, r3, 4, m.role);
    var r5, w5 := AddText(w4, r4, 5, m.x25519);
    var r6, w6 := AddBool(w5, r5, 6, m.canContribute);
    var r7, w7 := AddBool(w6, r6, 7, m.canModerate);
    Delivered(w7, r7);
  }

  datatype SetMemberCapabilities = SetMemberCapabilities(
    signer: Bytes, orgId: Bytes, pubkey: Bytes, canContribute: bool, canModerate: bool)

  function BuildSetMemberCapabilities(m: SetMemberCapabilities): Wire {
    EMPTY
    .Text(0x0a, m.signer)
    .Text(0x12, m.orgId)
    .Text(0x1a, m.pubkey)
    .Bool(0x20, m.canContribute)
    .Bool(0x28, m.canModerate)
  }

  function ReadSetMemberCapabilities(bytes: Bytes): Option<SetMemberCapabilities> {
    match Receive(bytes)
    case None => None
    case Some(r) =>
      Some(SetMemberCapabilities(
        TextAt(r, 1), TextAt(r, 2), TextAt(r, 3), BoolAt(r, 4), BoolAt(r, 5)))
  }

  lemma SetMemberCapabilitiesReads(m: SetMemberCapabilities)
    ensures ReadSetMemberCapabilities(BuildSetMemberCapabilities(m).bytes) == Some(m)
  {
    hide Receive, Sent, Wire.Says, Wire.Text, Wire.Num, Wire.Bool, TextAt, NumAt, Below;
    var r0 := AddNothing();
    var r1, w1 := AddText(EMPTY, r0, 1, m.signer);
    var r2, w2 := AddText(w1, r1, 2, m.orgId);
    var r3, w3 := AddText(w2, r2, 3, m.pubkey);
    var r4, w4 := AddBool(w3, r3, 4, m.canContribute);
    var r5, w5 := AddBool(w4, r4, 5, m.canModerate);
    Delivered(w5, r5);
  }

  datatype SetOrgConfig = SetOrgConfig(
    signer: Bytes, orgId: Bytes, receiptRequired: bool, minContributions: int, stake: int)

  function BuildSetOrgConfig(m: SetOrgConfig): Wire {
    EMPTY
    .Text(0x0a, m.signer)
    .Text(0x12, m.orgId)
    .Bool(0x18, m.receiptRequired)
    .Num(0x20, m.minContributions)
    .Num(0x28, m.stake)
  }

  function ReadSetOrgConfig(bytes: Bytes): Option<SetOrgConfig> {
    match Receive(bytes)
    case None => None
    case Some(r) =>
      Some(SetOrgConfig(
        TextAt(r, 1), TextAt(r, 2), BoolAt(r, 3), NumAt(r, 4), NumAt(r, 5)))
  }

  /** All arguments come back exactly when no number is negative. */
  lemma SetOrgConfigReads(m: SetOrgConfig)
    ensures ReadSetOrgConfig(BuildSetOrgConfig(m).bytes) == Some(m) <==> m.minContributions >= 0 && m.stake >= 0
  {
    hide Receive, Sent, Wire.Says, Wire.Text, Wire.Num, Wire.Bool, TextAt, NumAt, Below;
    var r0 := AddNothing();
    var r1, w1 := AddText(EMPTY, r0, 1, m.signer);
    var r2, w2 := AddText(w1, r1, 2, m.orgId);
    var r3, w3 := AddBool(w2, r2, 3, m.receiptRequired);
    var r4, w4 := AddNum(w3, r3, 4, m.minContributions);
    var r5, w5 := AddNum(w4, r4, 5, m.stake);
    Delivered(w5, r5);
    SentExactly(m.minContributions);
    SentExactly(m.stake);
  }

  datatype RegisterOrg = RegisterOrg(
    signer: Bytes, leader: Bytes, storageQuota: int, retrievalBudget: int, domain: Bytes, hubServingKey: Bytes,
    leaderWallet: Bytes, name: Bytes, description: Bytes, techStack: Bytes, focusAreas: Bytes)

  /** The name, field 12, goes out before fields 9 to 11. */
  function BuildRegisterOrg(m: RegisterOrg): Wire {
    EMPTY
    .Text(0x0a, m.signer)
    .Text(0x1a, m.leader)
    .Num(0x20, m.storageQuota)
    .Num(0x28, m.retrievalBudget)
    .Text(0x32, m.domain)
    .Text(0x3a, m.hubServingKey)
    .Text(0x42, m.leaderWallet)
    .Text(0x62, m.name)
    .Text(0x4a, m.description)
    .Text(0x52, m.techStack)
    .Text(0x5a, m.focusAreas)
  }

  function ReadRegisterOrg(bytes: Bytes): Option<RegisterOrg> {
    match Receive(bytes)
    case None => None
    case Some(r) =>
      Some(RegisterOrg(
        TextAt(r, 1), TextAt(r, 3), NumAt(r, 4), NumAt(r, 5), TextAt(r, 6), TextAt(r, 7), TextAt(r, 8),
        TextAt(r, 12), TextAt(r, 9), TextAt(r, 10), TextAt(r, 11)))
  }

  function RegisterOrgReceived(m: RegisterOrg): Received {
    map[
      1 := [Text(m.signer)], 3 := [Text(m.leader)], 4 := [Num(Sent(m.storageQuota))],
      5 := [Num(Sent(m.retrievalBudget))], 6 := [Text(m.domain)], 7 := [Text(m.hubServingKey)],
      8 := [Text(m.leaderWallet)], 12 := [Text(m.name)], 9 := [Text(m.description)], 10 := [Text(m.techStack)],
      11 := [Text(m.focusAreas)]]
  }

  lemma RegisterOrgHead(m: RegisterOrg) returns (r: Received, w: Wire)
    ensures w == EMPTY.Text(0x0a, m.signer).Text(0x1a, m.leader).Num(0x20, m.storageQuota)
                 .Num(0x28, m.retrievalBudget).Text(0x32, m.domain).Text(0x3a, m.hubServingKey)
    ensures w.Says(r) && r == map[
        1 := [Text(m.signer)], 3 := [Text(m.leader)], 4 := [Num(Sent(m.storageQuota))],
        5 := [Num(Sent(m.retrievalBudget))], 6 := [Text(m.domain)], 7 := [Text(m.hubServingKey)]]
  {
    hide Wire.Says, Wire.Text, Wire.Num;
    var r1, w1 := First(m.signer);
    var r2, w2 := ThenText(w1, r1, 3, m.leader);
    var r3, w3 := ThenNum(w2, r2, 4, m.storageQuota);
    var r4, w4 := ThenNum(w3, r3, 5, m.retrievalBudget);
    var r5, w5 := ThenText(w4, r4, 6, m.domain);
    r, w := ThenText(w5, r5, 7, m.hubServingKey);
  }

  lemma RegisterOrgTail(m: RegisterOrg, was: Received, before: Wire)
    requires before.Says(was) && forall n :: n in was ==> n < 8
    ensures before.Text(0x42, m.leaderWallet).Text(0x62, m.name).Text(0x4a, m.description).Text(0x52, m.techStack)
            .Text(0x5a, m.focusAreas).Says(
              was[8 := [Text(m.leaderWallet)]][12 := [Text(m.name)]][9 := [Text(m.description)]]
              [10 := [Text(m.techStack)]][11 := [Text(m.focusAreas)]])
  {
    hide Wire.Says, Wire.Text;
    var r1, w1 := ThenText(before, was, 8, m.leaderWallet);
    var r2, w2 := ThenText(w1, r1, 12, m.name);
    var r3, w3 := ThenText(w2, r2, 9, m.description);
    var r4, w4 := ThenText(w3, r3, 10, m.techStack);
    var r5, w5 := ThenText(w4, r4, 11, m.focusAreas);
  }

  lemma RegisterOrgSays(m: RegisterOrg)
    ensures BuildRegisterOrg(m).Says(RegisterOrgReceived(m))
  {
    hide Wire.Says, Wire.Text, Wire.Num;
    var r, w := RegisterOrgHead(m);
    RegisterOrgTail(m, r, w);
  }

  lemma RegisterOrgSeenHead(m: RegisterOrg)
    ensures var r := RegisterOrgReceived(m);
            && TextAt(r, 1) == m.signer && TextAt(r, 3) == m.leader && NumAt(r, 4) == Sent(m.storageQuota)
            && NumAt(r, 5) == Sent(m.retrievalBudget) && TextAt(r, 6) == m.domain && TextAt(r, 7) == m.hubServingKey
  {
    hide Sent;
  }

  lemma RegisterOrgSeenTail(m: RegisterOrg)
    ensures var r := RegisterOrgReceived(m);
            && TextAt(r, 8) == m.leaderWallet && TextAt(r, 12) == m.name && TextAt(r, 9) == m.description
            && TextAt(r, 10) == m.techStack && TextAt(r, 11) == m.focusAreas
  {
  }

  /** All arguments come back exactly when no number is negative. */
  lemma RegisterOrgReads(m: RegisterOrg)
    ensures ReadRegisterOrg(BuildRegisterOrg(m).bytes) == Some(m) <==> m.storageQuota >= 0 && m.retrievalBudget >= 0
  {
    hide BuildRegisterOrg, Receive, Sent, TextAt, NumAt, RegisterOrgReceived;
    SentExactly(m.storageQuota);
    SentExactly(m.retrievalBudget);
    RegisterOrgSays(m);
    Delivered(BuildRegisterOrg(m), RegisterOrgReceived(m));
    RegisterOrgSeenHead(m);
    RegisterOrgSeenTail(m);
  }

  /** "memory", the one memory type there is. */
  const MEMORY: Bytes := [109, 101, 109, 111, 114, 121]

  function TypeName(code: nat): Bytes {
    if code == 1 then MEMORY else []
  }

  datatype ApproveMemory = ApproveMemory(
    signer: Bytes, orgId: Bytes, contentHash: Bytes, encryptedBlob: Bytes, committingLeader: Bytes,
    wrappedDekEnc: Bytes, memoryType: Bytes, plaintextHash: Bytes, salt: Bytes, ciphertextHash: Bytes,
    contributorSig: Bytes, mcVersion: int)

  /** Any other memory type throws. */
  function BuildApproveMemory(m: ApproveMemory): Option<Wire> {
    if m.memoryType != MEMORY then None
    else Some(
        EMPTY
        .Text(0x0a, m.signer)
        .Text(0x12, m.orgId)
        .Text(0x1a, m.contentHash)
        .Text(0x22, m.encryptedBlob)
        .Text(0x32, m.committingLeader)
        .Text(0x3a, m.wrappedDekEnc)
        .Num(0x40, 1)
        .Text(0x4a, m.plaintextHash)
        .Text(0x52, m.salt)
        .Text(0x5a, m.ciphertextHash)
        .Text(0x62, m.contributorSig)
        .Num(0x78, m.mcVersion))
  }

  function ReadApproveMemory(bytes: Bytes): Option<ApproveMemory> {
    match Receive(bytes)
    case None => None
    case Some(r) =>
      Some(ApproveMemory(
        TextAt(r, 1), TextAt(r, 2), TextAt(r, 3), TextAt(r, 4), TextAt(r, 6), TextAt(r, 7), TypeName(NumAt(r, 8)),
        TextAt(r, 9), TextAt(r, 10), TextAt(r, 11), TextAt(r, 12), NumAt(r, 15)))
  }

  lemma ApproveMemoryReads(m: ApproveMemory)
    ensures BuildApproveMemory(m).Some? <==> m.memoryType == MEMORY
    ensures BuildApproveMemory(m).Some? ==>
              (ReadApproveMemory(BuildApproveMemory(m).value.bytes) == Some(m) <==> m.mcVersion >= 0)
  {
    hide Receive, Sent, Wire.Says, Wire.Text, Wire.Num, TextAt, NumAt, Below;
    var r0 := AddNothing();
    var r1, w1 := AddText(EMPTY, r0, 1, m.signer);
    var r2, w2 := AddText(w1, r1, 2, m.orgId);
    var r3, w3 := AddText(w2, r2, 3, m.contentHash);
    var r4, w4 := AddText(w3, r3, 4, m.encryptedBlob);
    BelowMore(r4, 5);
    var r5, w5 := AddText(w4, r4, 6, m.committingLeader);
    var r6, w6 := AddText(w5, r5, 7, m.wrappedDekEnc);
    var r7, w7 := AddNum(w6, r6, 8, 1);
    var r8, w8 := AddText(w7, r7, 9, m.plaintextHash);
    var r9, w9 := AddText(w8, r8, 10, m.salt);
    var r10, w10 := AddText(w9, r9, 11, m.ciphertextHash);
    var r11, w11 := AddText(w10, r10, 12, m.contributorSig);
    BelowMore(r11, 13);
    BelowMore(r11, 14);
    var r12, w12 := AddNum(w11, r11, 15, m.mcVersion);
    Delivered(w12, r12);
    SentExactly(1);
    SentExactly(m.mcVersion);
  }

  // ----- messages built in loops and branches -----

  /** A keyword and its weight, "1.0" when not given. */
  datatype KeywordWeight = KeywordWeight(keyword: Bytes, weight: Option<Bytes>)

  const ONE: Bytes := [49, 46, 48]

  function WeightOf(k: KeywordWeight): Bytes {
    if k.weight.Some? then k.weight.value else ONE
  }

  function Nested(k: KeywordWeight): Bytes {
    EMPTY.Text(0x0a, k.keyword).Text(0x12, WeightOf(k)).bytes
  }

  function NestedAll(ks: seq<KeywordWeight>): (r: seq<Bytes>)
    ensures |r| == |ks| && forall i :: 0 <= i < |r| ==> r[i] == Nested(ks[i])
  {
    seq(|ks|, i requires 0 <= i < |ks| => Nested(ks[i]))
  }

  datatype Keyword = Keyword(keyword: Bytes, weight: Bytes)

  function ReadKeyword(bytes: Bytes): Option<Keyword> {
    match Receive(bytes) case None => None case Some(r) => Some(Keyword(TextAt(r, 1), TextAt(r, 2)))
  }

  function ReadKeywords(parts: seq<Bytes>): (r: seq<Option<Keyword>>)
    ensures |r| == |parts| && forall i :: 0 <= i < |r| ==> r[i] == ReadKeyword(parts[i])
  {
    seq(|parts|, i requires 0 <= i < |parts| => ReadKeyword(parts[i]))
  }

  lemma KeywordReads(k: KeywordWeight)
    ensures ReadKeyword(Nested(k)) == Some(Keyword(k.keyword, WeightOf(k)))
  {
    hide Wire.Says, Wire.Text;
    var r1, w1 := First(k.keyword);
    var r2, w2 := ThenText(w1, r1, 2, WeightOf(k));
    Delivered(w2, r2);
  }

  datatype SubmitCommitment = SubmitCommitment(
    signer: Bytes, orgId: Bytes, contentHash: Bytes, keywords: seq<KeywordWeight>, contributorId: Bytes,
    contributorWallet: Bytes, memoryType: Bytes, mcVersion: int)

  /** What a reader sees: the keywords in order, each with its weight. */
  datatype Commitment = Commitment(
    signer: Bytes, orgId: Bytes, contentHash: Bytes, keywords: seq<Option<Keyword>>, contributorId: Bytes,
    contributorWallet: Bytes, memoryType: Bytes, mcVersion: nat)

  function ReadCommitment(bytes: Bytes): Option<Commitment> {
    match Receive(bytes)
    case None => None
    case Some(r) =>
      Some(Commitment(
        TextAt(r, 1), TextAt(r, 2), TextAt(r, 3), ReadKeywords(TextsAt(r, 4)), TextAt(r, 5), TextAt(r, 6),
        TypeName(NumAt(r, 7)), NumAt(r, 10)))
  }

  function Weighted(ks: seq<KeywordWeight>): (r: seq<Option<Keyword>>)
    ensures |r| == |ks| && forall i :: 0 <= i < |r| ==> r[i] == Some(Keyword(ks[i].keyword, WeightOf(ks[i])))
  {
    seq(|ks|, i requires 0 <= i < |ks| => Some(Keyword(ks[i].keyword, WeightOf(ks[i]))))
  }

  lemma KeywordsRead(ks: seq<KeywordWeight>)
    ensures ReadKeywords(NestedAll(ks)) == Weighted(ks)
  {
    forall i | 0 <= i < |ks| ensures ReadKeyword(NestedAll(ks)[i]) == Weighted(ks)[i] {
      KeywordReads(ks[i]);
    }
  }

  /** A reader sees every argument, whatever the keywords are; the version reads as it was unless negative. */
  method BuildSubmitCommitment(m: SubmitCommitment) returns (value: Option<Wire>)
    ensures value.Some? <==> m.memoryType == MEMORY
    ensures value.Some? ==>
              ReadCommitment(value.value.bytes)
              == Some(Commitment(m.signer, m.orgId, m.contentHash, Weighted(m.keywords), m.contributorId,
                                 m.contributorWallet, m.memoryType, Sent(m.mcVersion)))
  {
    hide Wire.Says, Wire.Text, Wire.Num, Sent, AddedAll, TextAt, NumAt, TextsAt, Receive, Below;
    ghost var r0 := AddNothing();
    ghost var r1, w1 := AddText(EMPTY, r0, 1, m.signer);
    ghost var r2, w2 := AddText(w1, r1, 2, m.orgId);
    ghost var r3, w3 := AddText(w2, r2, 3, m.contentHash);
    var fields := EMPTY.Text(0x0a, m.signer).Text(0x12, m.orgId).Text(0x1a, m.contentHash);
    var i := 0;
    AddedNone(r3, 4);
    while i < |m.keywords|
      invariant i <= |m.keywords| && fields.Says(AddedAll(r3, 4, NestedAll(m.keywords[..i])))
    {
      var nested := EMPTY.Text(0x0a, m.keywords[i].keyword).Text(0x12, WeightOf(m.keywords[i]));
      SayText(fields, AddedAll(r3, 4, NestedAll(m.keywords[..i])), 4, nested.bytes);
      NestedSnoc(m.keywords, i, r3);
      fields := fields.Text(0x22, nested.bytes);
      i := i + 1;
    }
    assert m.keywords[..i] == m.keywords;
    if m.memoryType != MEMORY {
      return None;
    }
    ghost var r4 := AddedAll(r3, 4, NestedAll(m.keywords));
    RepeatedReads(r3, 4, NestedAll(m.keywords));
    KeywordsRead(m.keywords);
    ghost var r5, w5 := AddText(fields, r4, 5, m.contributorId);
    ghost var r6, w6 := AddText(w5, r5, 6, m.contributorWallet);
    ghost var r7, w7 := AddNum(w6, r6, 7, 1);
    BelowMore(r7, 8);
    BelowMore(r7, 9);
    ghost var r8, w8 := AddNum(w7, r7, 10, m.mcVersion);
    SentExactly(1);
    fields := fields.Text(0x2a, m.contributorId).Text(0x32, m.contributorWallet).Num(0x38, 1).Num(0x50, m.mcVersion);
    Delivered(fields, r8);
    return Some(fields);
  }

  lemma AddedNone(r: Received, number: nat)
    ensures AddedAll(r, number, NestedAll([])) == r
  {
  }

  lemma NestedSnoc(ks: seq<KeywordWeight>, i: nat, r: Received)
    requires i < |ks|
    ensures AddedAll(r, 4, NestedAll(ks[..i + 1]))
         == Added(AddedAll(r, 4, NestedAll(ks[..i])), Field(4, Text(Nested(ks[i]))))
  {
    assert NestedAll(ks[..i + 1])[..i] == NestedAll(ks[..i]);
    assert NestedAll(ks[..i + 1])[i] == Nested(ks[i]);
  }

  datatype Report = Report(
    signer: Bytes, orgId: Bytes, contentHash: Bytes, contributor: Bytes, approving: seq<Bytes>, upholding: seq<Bytes>,
    reporter: Bytes, reason: Bytes, plaintext: Bytes, ciphertext: Bytes, capsule: Bytes, plaintextHash: Bytes,
    oversized: bool)

  function ReadReport(bytes: Bytes): Option<Report> {
    match Receive(bytes)
    case None => None
    case Some(r) =>
      Some(Report(
        TextAt(r, 1), TextAt(r, 2), TextAt(r, 3), TextAt(r, 4), TextsAt(r, 5), TextsAt(r, 6), TextAt(r, 7),
        TextAt(r, 8), TextAt(r, 9), TextAt(r, 10), TextAt(r, 11), TextAt(r, 12), BoolAt(r, 13)))
  }

  /** An omitted argument and an empty one both leave the field out, and it reads as empty. */
  function Given(bytes: Option<Bytes>): Bytes {
    if bytes.Some? then bytes.value else []
  }

  /** An optional bytes field. */
  method AddOptional(fields: Wire, number: nat, value: Option<Bytes>, ghost was: Received)
    returns (more: Wire, ghost r: Received)
    requires fields.Says(was) && 0 < number < 16 && Below(was, number)
    ensures more.Says(r) && TextAt(r, number) == Given(value)
    ensures Keeps(r, was, number) && Below(r, number + 1)
  {
    hide Wire.Says;
    more, r := fields, was;
    if value.Some? && |value.value| > 0 {
      ghost var after, wire := AddText(fields, was, number, value.value);
      r := after;
      more := fields.Text(8 * number + 2, value.value);
    }
  }

  method BuildReportMemory(
      signer: Bytes, orgId: Bytes, contentHash: Bytes, contributor: Bytes, approving: seq<Bytes>, upholding: seq<Bytes>,
      reporter: Bytes, reason: Bytes, plaintext: Option<Bytes>, ciphertext: Option<Bytes>, capsule: Option<Bytes>,
      plaintextHash: Option<Bytes>, oversized: bool)
    returns (fields: Wire)
    ensures ReadReport(fields.bytes)
         == Some(Report(signer, orgId, contentHash, contributor, approving, upholding, reporter, reason,
                        Given(plaintext), Given(ciphertext), Given(capsule), Given(plaintextHash), oversized))
  {
    hide Wire.Says, Wire.Text, Wire.Num, TextAt, NumAt, TextsAt, Receive, Below, Sent;
    ghost var r0 := AddNothing();
    ghost var r1, w1 := AddText(EMPTY, r0, 1, signer);
    ghost var r2, w2 := AddText(w1, r1, 2, orgId);
    ghost var r3, w3 := AddText(w2, r2, 3, contentHash);
    ghost var r4, w4 := AddText(w3, r3, 4, contributor);
    fields := EMPTY.Text(0x0a, signer).Text(0x12, orgId).Text(0x1a, contentHash).Text(0x22, contributor);
    ghost var r5, r6, r9, r10, r11, r12, r;
    fields, r5 := EncodeRepeatedStringField(fields, 5, approving, r4);
    fields, r6 := EncodeRepeatedStringField(fields, 6, upholding, r5);
    ghost var r7, w7 := AddText(fields, r6, 7, reporter);
    ghost var r8, w8 := AddText(w7, r7, 8, reason);
    fields := fields.Text(0x3a, reporter).Text(0x42, reason);
    fields, r9 := AddOptional(fields, 9, plaintext, r8);
    fields, r10 := AddOptional(fields, 10, ciphertext, r9);
    fields, r11 := AddOptional(fields, 11, capsule, r10);
    fields, r12 := AddOptional(fields, 12, plaintextHash, r11);
    r := r12;
    NoneBelow(r12, 13);
    if oversized {
      ghost var r13, w13 := AddNum(fields, r12, 13, 1);
      fields, r := fields.Num(0x68, 1), r13;
    }
    SentExactly(1);
    Delivered(fields, r);
  }

  datatype ServingInfo = ServingInfo(signer: Bytes, orgId: Bytes, hubEndpoints: seq<Bytes>, responsePubkey: Bytes)

  function ReadServingInfo(bytes: Bytes): Option<ServingInfo> {
    match Receive(bytes)
    case None => None
    case Some(r) => Some(ServingInfo(TextAt(r, 1), TextAt(r, 2), TextsAt(r, 3), TextAt(r, 4)))
  }

  /** The response key goes out trimmed, and not at all when nothing is left of it. */
  method BuildSetServingInfo(
      signer: Bytes, orgId: Bytes, hubEndpoints: seq<Bytes>, hubResponsePubkey: string, utf8: string -> Bytes)
    returns (fields: Wire)
    requires utf8("") == []
    ensures ReadServingInfo(fields.bytes)
         == Some(ServingInfo(signer, orgId, hubEndpoints, utf8(Strings.Trim(hubResponsePubkey))))
  {
    hide Wire.Says, Wire.Text, TextAt, NumAt, TextsAt, Receive, Strings.Trim, Below;
    ghost var r0 := AddNothing();
    ghost var r1, w1 := AddText(EMPTY, r0, 1, signer);
    ghost var r2, w2 := AddText(w1, r1, 2, orgId);
    fields := EMPTY.Text(0x0a, signer).Text(0x12, orgId);
    ghost var r3, r;
    fields, r3 := EncodeRepeatedStringField(fields, 3, hubEndpoints, r2);
    r := r3;
    var responsePubkey := Strings.Trim(hubResponsePubkey);
    if |responsePubkey| > 0 {
      ghost var r4, w4 := AddText(fields, r3, 4, utf8(responsePubkey));
      fields, r := fields.Text(0x22, utf8(responsePubkey)), r4;
    } else {
      assert responsePubkey == "";
      NoneBelow(r3, 4);
    }
    Delivered(fields, r);
  }
}
