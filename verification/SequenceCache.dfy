/** The cached account sequence of an org's signer (wevibe-hub/internal/chain/broadcast.go), one
    sender at a time, as the signer's lock ensures. */
module SequenceCache {
  // The chain answers as it likes within its own rules: it takes only a transaction with the account's next
  // sequence, and taking one uses the sequence up, whether or not the transaction then succeeds.

  import opened Gas
  import opened Wrappers

  datatype Account = Found(sequence: nat) | Missing | Unknown

  datatype Simulated = Estimate(gas: U64) | StaleEstimate | NoEstimate

  /** An answer may be lost on its way back. */
  datatype Reply = Delivered(code: nat, saysOutOfGas: bool, gasUsed: U64) | Stale | Lost

  /** What the chain and the faucet are asked, and what they answer. */
  datatype Exchange =
    | Queried(account: Account)
    | Funded(paid: bool)
    | ToppedUp(enough: bool)
    | Simulation(used: nat, estimate: Simulated)
    | Commitment(used: nat, gasLimit: U64, reply: Reply)

  class Chain {
    var sequence: nat
    /** How many transactions have taken effect. */
    ghost var executed: nat
    ghost var log: seq<Exchange>

    constructor ()
      ensures sequence == 0 && executed == 0 && log == []
    {
      sequence, executed, log := 0, 0, [];
    }

    method QueryAccount() returns (account: Account)
      modifies `log
      ensures account.Found? ==> account.sequence == sequence
      ensures log == old(log) + [Queried(account)]
    {
      var known: bool := *;
      var missing: bool := *;
      account := if known then Found(sequence) else if missing then Missing else Unknown;
      log := log + [Queried(account)];
    }

    method Fund() returns (paid: bool)
      modifies `log
      ensures log == old(log) + [Funded(paid)]
    {
      paid := *;
      log := log + [Funded(paid)];
    }

    method TopUp() returns (enough: bool)
      modifies `log
      ensures log == old(log) + [ToppedUp(enough)]
    {
      enough := *;
      log := log + [ToppedUp(enough)];
    }

    method Simulate(used: nat) returns (s: Simulated)
      modifies `log
      ensures s.StaleEstimate? ==> used != sequence
      ensures log == old(log) + [Simulation(used, s)]
    {
      var gas: U64 := *;
      var fails: bool := *;
      s := if fails && used != sequence then StaleEstimate else if fails then NoEstimate else Estimate(gas);
      log := log + [Simulation(used, s)];
    }

    /** A transaction with a sequence that is not the next changes nothing. */
    method Commit(used: nat, gasLimit: U64) returns (r: Reply)
      modifies this
      ensures used != old(sequence) ==> !r.Delivered? && sequence == old(sequence) && executed == old(executed)
      ensures used == old(sequence) ==> r != Stale && old(sequence) <= sequence <= old(sequence) + 1
      ensures r.Delivered? ==> sequence == old(sequence) + 1
      ensures r.Delivered? ==> executed == old(executed) + if r.code == 0 then 1 else 0
      ensures old(executed) <= executed <= old(executed) + 1
      ensures log == old(log) + [Commitment(used, gasLimit, r)]
    {
      var lost: bool := *;
      var taken: bool := *;
      var code: nat := *;
      var says: bool := *;
      var gasUsed: U64 := *;
      if used != sequence {
        r := if lost then Lost else Stale;
      } else {
        if taken || !lost {
          sequence := sequence + 1;
          if code == 0 {
            executed := executed + 1;
          }
        }
        r := if lost then Lost else Delivered(code, says, gasUsed);
      }
      log := log + [Commitment(used, gasLimit, r)];
    }
  }

  datatype Broadcast = Accepted | Mismatch | Refused

  // ----- what a call asks -----

  /** Nothing is asked while a sequence is cached. Otherwise the account is queried, and funded and queried once
      more if it does not exist; the sequence is what the last query found, if anything. */
  ghost predicate Loading(asked: seq<Exchange>, cached: Option<nat>, got: Option<nat>) {
    if cached.Some? then asked == [] && got == cached
    else
      && asked != [] && asked[0].Queried?
      && match asked[0].account
         case Found(s) => |asked| == 1 && got == Some(s)
         case Unknown => |asked| == 1 && got == None
         case Missing =>
           && |asked| > 1 && asked[1].Funded?
           && if !asked[1].paid then |asked| == 2 && got == None
              else
                && |asked| == 3 && asked[2].Queried?
                && got == match asked[2].account case Found(s) => Some(s) case _ => None
  }

  function Meaning(reply: Reply): Broadcast {
    match reply
    case Stale => Mismatch
    case Lost => Refused
    case Delivered(code, _, _) => if code == 0 then Accepted else Refused
  }

  /** The limit a further attempt would carry, if this answer allows one. */
  function Retryable(reply: Reply): Option<U64> {
    if reply.Delivered? && reply.code != 0 && reply.saysOutOfGas then NextEscalatedGasLimit(reply.gasUsed) else None
  }

  /** Attempts with one sequence, each but the first with the limit escalated from the answer before it; the last
      is the one no further attempt is due after. */
  ghost predicate Attempts(asked: seq<Exchange>, used: nat, limit: U64, maxRetries: nat) {
    && (forall i :: 0 <= i < |asked| ==> asked[i].Commitment? && asked[i].used == used)
    && (asked != [] ==> asked[0].gasLimit == limit)
    && (forall i :: 0 <= i < |asked| - 1 ==> Retryable(asked[i].reply) == Some(asked[i + 1].gasLimit))
    && |asked| <= maxRetries + 1
  }

  ghost predicate Retried(asked: seq<Exchange>, used: nat, limit: U64, maxRetries: nat, r: Broadcast) {
    && asked != [] && Attempts(asked, used, limit, maxRetries)
    && r == Meaning(asked[|asked| - 1].reply)
    && (|asked| == maxRetries + 1 || Retryable(asked[|asked| - 1].reply) == None)
  }

  /** One broadcast of a transaction with this sequence: nothing is asked if it cannot be built; it is simulated,
      and then committed under the limit the simulation gives, once or with retries. */
  ghost predicate BroadcastLog(asked: seq<Exchange>, used: nat, built: bool, mode: Strategy, r: Broadcast) {
    if !built then asked == [] && r == Refused
    else
      && asked != [] && asked[0].Simulation? && asked[0].used == used
      && match asked[0].estimate
         case StaleEstimate => |asked| == 1 && r == Mismatch
         case NoEstimate => |asked| == 1 && r == Refused
         case Estimate(gas) =>
           var limit := GasLimitFromSimulation(gas, mode);
           if limit.None? then |asked| == 1 && r == Refused
           else Retried(asked[1..], used, limit.value, if mode == SimulateRetry then 3 else 0, r)
  }

  class Signer {
    var nextSeq: nat
    var seqLoaded: bool

    constructor ()
      ensures !seqLoaded
    {
      nextSeq, seqLoaded := 0, false;
    }

    function Cached(): Option<nat>
      reads this
    {
      if seqLoaded then Some(nextSeq) else None
    }

    /** The cached sequence is never ahead of the chain's, and at most one behind. */
    ghost predicate Tracks(chain: Chain)
      reads this, chain
    {
      seqLoaded ==> nextSeq <= chain.sequence <= nextSeq + 1
    }

    method LoadState(chain: Chain) returns (ok: bool, ghost asked: seq<Exchange>)
      modifies this, chain`log
      ensures chain.log == old(chain.log) + asked && Loading(asked, old(Cached()), Cached())
      ensures ok == seqLoaded && (asked == [] <==> old(seqLoaded))
      ensures ok && !old(seqLoaded) ==> nextSeq == chain.sequence
    {
      asked := [];
      if seqLoaded {
        return true, asked;
      }
      var account := chain.QueryAccount();
      asked := [Queried(account)];
      if account.Unknown? {
        return false, asked;
      }
      if account.Missing? {
        var funded := chain.Fund();
        asked := asked + [Funded(funded)];
        if !funded {
          return false, asked;
        }
        account := chain.QueryAccount();
        asked := asked + [Queried(account)];
        if !account.Found? {
          return false, asked;
        }
      }
      nextSeq, seqLoaded := account.sequence, true;
      return true, asked;
    }

    /** The out-of-gas retries all carry the same sequence. The first delivery, failed as it is, uses that
        sequence up: no later attempt is taken, so a larger limit never gets its chance. */
    method CommitWithRetries(chain: Chain, initialGasLimit: U64, maxRetries: nat)
      returns (r: Broadcast, ghost asked: seq<Exchange>)
      modifies chain
      ensures chain.log == old(chain.log) + asked && Retried(asked, nextSeq, initialGasLimit, maxRetries, r)
      ensures r.Accepted? ==> |asked| == 1
      ensures nextSeq != old(chain.sequence) ==>
                r != Accepted && chain.sequence == old(chain.sequence) && chain.executed == old(chain.executed)
      ensures old(chain.sequence) <= chain.sequence <= old(chain.sequence) + 1
      ensures r.Accepted? ==> nextSeq == old(chain.sequence) && chain.sequence == nextSeq + 1
      ensures r.Mismatch? ==> nextSeq != chain.sequence && chain.executed == old(chain.executed)
      ensures old(chain.executed) + (if r.Accepted? then 1 else 0) <= chain.executed <= old(chain.executed) + 1
    {
      var gasLimit := initialGasLimit;
      asked := [];
      var attempt := 1;
      while attempt <= maxRetries + 1
        invariant 1 <= attempt <= maxRetries + 2 && |asked| == attempt - 1
        invariant chain.log == old(chain.log) + asked && Attempts(asked, nextSeq, initialGasLimit, maxRetries)
        invariant asked != [] ==> attempt <= maxRetries + 1 && Retryable(asked[|asked| - 1].reply) == Some(gasLimit)
        invariant asked == [] ==> gasLimit == initialGasLimit
        invariant if asked == [] then chain.sequence == old(chain.sequence)
                  else nextSeq == old(chain.sequence) && chain.sequence == old(chain.sequence) + 1
        invariant chain.executed == old(chain.executed)
      {
        var reply := chain.Commit(nextSeq, gasLimit);
        asked := asked + [Commitment(nextSeq, gasLimit, reply)];
        match reply {
          case Stale => return Mismatch, asked;
          case Lost => return Refused, asked;
          case Delivered(code, says, used) =>
            if code == 0 {
              return Accepted, asked;
            }
            if !says || attempt > maxRetries {
              return Refused, asked;
            }
            var next := NextEscalatedGasLimit(used);
            if next.None? {
              return Refused, asked;
            }
            gasLimit := next.value;
        }
        attempt := attempt + 1;
      }
      assert false;
      return Refused, asked;
    }

    /** Simulate, then broadcast by one of the two strategies. */
    method BroadcastSigned(chain: Chain, mode: Strategy, built: bool) returns (r: Broadcast, ghost asked: seq<Exchange>)
      modifies chain
      ensures chain.log == old(chain.log) + asked && BroadcastLog(asked, nextSeq, built, mode, r)
      ensures nextSeq != old(chain.sequence) ==>
                r != Accepted && chain.sequence == old(chain.sequence) && chain.executed == old(chain.executed)
      ensures old(chain.sequence) <= chain.sequence <= old(chain.sequence) + 1
      ensures r.Accepted? ==> nextSeq == old(chain.sequence) && chain.sequence == nextSeq + 1
      ensures r.Mismatch? ==> nextSeq != chain.sequence && chain.executed == old(chain.executed)
      ensures old(chain.executed) + (if r.Accepted? then 1 else 0) <= chain.executed <= old(chain.executed) + 1
    {
      asked := [];
      if !built {
        return Refused, asked;
      }
      var simulated := chain.Simulate(nextSeq);
      asked := [Simulation(nextSeq, simulated)];
      match simulated {
        case StaleEstimate => return Mismatch, asked;
        case NoEstimate => return Refused, asked;
        case Estimate(gas) =>
          var limit := GasLimitFromSimulation(gas, mode);
          if limit.None? {
            return Refused, asked;
          }
          ghost var commits;
          match mode {
            case SimulateRetry =>
              r, commits := CommitWithRetries(chain, limit.value, 3);
            case SimulateBuffer =>
              var reply := chain.Commit(nextSeq, limit.value);
              commits := [Commitment(nextSeq, limit.value, reply)];
              r := match reply
                case Stale => Mismatch
                case Lost => Refused
                case Delivered(code, _, _) => if code == 0 then Accepted else Refused;
          }
          asked := asked + commits;
          assert asked[1..] == commits;
      }
    }

    /** A mismatch makes the call reload the sequence and broadcast once more; nothing else does. Whatever
        the chain answers, the cache keeps up with it, and the messages take effect at most once: exactly
        once when the call succeeds. `builds` says whether a transaction with a given sequence can be built. */
    method BroadcastMsgsForOrg(chain: Chain, mode: Strategy, builds: nat -> bool) returns (ok: bool, ghost t: Trace)
      requires Tracks(chain)
      modifies this, chain
      ensures chain.log == old(chain.log) + t.Asked() && Follows(t, old(Cached()), mode, builds, ok, Cached())
      ensures t.read.Some? ==> t.read.value == t.chainAtReload
      ensures t.Reloads() && seqLoaded && !ok ==> nextSeq == t.chainAtReload != t.sequence.value
      ensures Tracks(chain)
      ensures ok ==> seqLoaded && nextSeq == chain.sequence
      ensures old(chain.executed) + (if ok then 1 else 0) <= chain.executed <= old(chain.executed) + 1
      ensures old(chain.sequence) <= chain.sequence <= old(chain.sequence) + 2
    {
      hide Loading, BroadcastLog, Trace.Asked;
      t := NoTrace();
      var loaded;
      ghost var asked;
      loaded, asked := LoadState(chain);
      t := t.(load := asked, sequence := Cached());
      if !loaded {
        AskedSoFar(old(chain.log), t);
        return false, t;
      }
      var balanced := chain.TopUp();
      t := t.(topUp := [ToppedUp(balanced)]);
      if !balanced {
        AskedSoFar(old(chain.log), t);
        return false, t;
      }
      var r;
      r, asked := BroadcastSigned(chain, mode, builds(nextSeq));
      t := t.(first := asked, reply := Some(r));
      if r.Accepted? {
        nextSeq := nextSeq + 1;
        AskedSoFar(old(chain.log), t);
        return true, t;
      }
      if !r.Mismatch? {
        AskedSoFar(old(chain.log), t);
        return false, t;
      }
      ok, t := ReloadAndRetry(chain, mode, builds, t);
      AskedSoFar(old(chain.log), t);
    }

    /** After a mismatch. */
    method ReloadAndRetry(chain: Chain, mode: Strategy, builds: nat -> bool, ghost before: Trace)
      returns (ok: bool, ghost t: Trace)
      requires before.reply == Some(Mismatch)
      modifies this, chain
      ensures t == before.(reload := t.reload, read := t.read, chainAtReload := old(chain.sequence),
                           second := t.second, secondReply := t.secondReply)
      ensures chain.log == old(chain.log) + t.reload + t.second
      ensures Closes(t.reload, t.second, t.read, t.secondReply, t.reply, mode, builds)
      ensures t.Reloads() && (ok <==> t.secondReply == Some(Accepted))
      ensures Cached() == if ok && t.read.Some? then Some(t.read.value + 1) else t.read
      ensures t.read.Some? ==> t.read.value == old(chain.sequence)
      ensures Tracks(chain) && (ok ==> seqLoaded && nextSeq == chain.sequence)
      ensures old(chain.executed) + (if ok then 1 else 0) <= chain.executed <= old(chain.executed) + 1
      ensures old(chain.sequence) <= chain.sequence <= old(chain.sequence) + 1
    {
      hide Loading, BroadcastLog;
      seqLoaded := false;
      var loaded;
      ghost var asked;
      loaded, asked := LoadState(chain);
      t := before.(reload := asked, read := Cached(), chainAtReload := chain.sequence, second := [], secondReply := None);
      if !loaded {
        return false, t;
      }
      var r;
      r, asked := BroadcastSigned(chain, mode, builds(nextSeq));
      t := t.(second := asked, secondReply := Some(r));
      if !r.Accepted? {
        return false, t;
      }
      nextSeq := nextSeq + 1;
      return true, t;
    }
  }

  /** A call's exchanges, part by part, the sequences it broadcast with and how each broadcast came out. */
  datatype Trace = Trace(
    load: seq<Exchange>, topUp: seq<Exchange>, first: seq<Exchange>, reload: seq<Exchange>, second: seq<Exchange>,
    sequence: Option<nat>, reply: Option<Broadcast>, read: Option<nat>, secondReply: Option<Broadcast>, chainAtReload: nat)
  {
    function Asked(): seq<Exchange> {
      load + (topUp + (first + (reload + second)))
    }

    predicate Reloads() {
      reload != []
    }
  }

  lemma AskedSoFar(log: seq<Exchange>, t: Trace)
    ensures log + t.Asked() == log + t.load + t.topUp + t.first + t.reload + t.second
    ensures t.second == [] ==> log + t.Asked() == log + t.load + t.topUp + t.first + t.reload
    ensures t.second == t.reload == [] ==> log + t.Asked() == log + t.load + t.topUp + t.first
    ensures t.second == t.reload == t.first == [] ==> log + t.Asked() == log + t.load + t.topUp
    ensures t.second == t.reload == t.first == t.topUp == [] ==> log + t.Asked() == log + t.load
  {
  }

  function NoTrace(): Trace {
    Trace([], [], [], [], [], None, None, None, None, 0)
  }

  /** How a call goes: it loads a sequence, sees to the balance and broadcasts. A mismatch, and nothing else, makes
      it query the sequence afresh and, if it gets one, broadcast again with that one. It succeeds just when the
      last broadcast is accepted, and leaves cached the sequence last broadcast with, or the one after it when
      accepted; nothing stays cached when the sequence could not be read. */
  ghost predicate Follows(t: Trace, before: Option<nat>, mode: Strategy, builds: nat -> bool, ok: bool, after: Option<nat>) {
    && Opens(t.load, t.topUp, t.first, t.sequence, t.reply, before, mode, builds)
    && Closes(t.reload, t.second, t.read, t.secondReply, t.reply, mode, builds)
    && (ok <==> (if t.Reloads() then t.secondReply else t.reply) == Some(Accepted))
    && var last := if t.Reloads() then t.read else t.sequence;
       after == if ok && last.Some? then Some(last.value + 1) else last
  }

  ghost predicate Opens(load: seq<Exchange>, topUp: seq<Exchange>, first: seq<Exchange>, sequence: Option<nat>,
                        reply: Option<Broadcast>, before: Option<nat>, mode: Strategy, builds: nat -> bool) {
    && Loading(load, before, sequence)
    && (if sequence.None? then topUp == [] else |topUp| == 1 && topUp[0].ToppedUp?)
    && (reply.Some? <==> topUp != [] && topUp[0].ToppedUp? && topUp[0].enough)
    && if reply.Some? then sequence.Some? && BroadcastLog(first, sequence.value, builds(sequence.value), mode, reply.value)
       else first == []
  }

  ghost predicate Closes(reload: seq<Exchange>, second: seq<Exchange>, read: Option<nat>, secondReply: Option<Broadcast>,
                         reply: Option<Broadcast>, mode: Strategy, builds: nat -> bool) {
    && (reload != [] <==> reply == Some(Mismatch))
    && (if reload != [] then Loading(reload, None, read) else read == None)
    && (secondReply.Some? <==> read.Some?)
    && if read.Some? then secondReply.Some? && BroadcastLog(second, read.value, builds(read.value), mode, secondReply.value)
       else second == []
  }

  /** One call: whether it succeeded, how often it reloaded, and what it left cached and on the chain. */
  datatype Call = Call(ok: bool, reloads: nat, loaded: bool, cached: nat, onChain: nat)

  /** The cache is never ahead and at most one behind, it is exact after a success, and a call reloads at
      most once. */
  predicate Sound(c: Call) {
    && c.reloads <= 1
    && (c.ok ==> c.loaded && c.cached == c.onChain)
    && (c.loaded ==> c.cached <= c.onChain <= c.cached + 1)
  }

  function Successes(calls: seq<Call>): nat {
    if calls == [] then 0
    else Successes(calls[..|calls| - 1]) + if calls[|calls| - 1].ok then 1 else 0
  }

  /** Every call is sound, and the chain's sequence never goes back from one to the next. */
  predicate AllSound(calls: seq<Call>) {
    && (forall i :: 0 <= i < |calls| ==> Sound(calls[i]))
    && (forall i, j :: 0 <= i < j < |calls| ==> calls[i].onChain <= calls[j].onChain)
  }

  lemma {:induction false} CallsSnoc(calls: seq<Call>, call: Call)
    requires AllSound(calls) && Sound(call) && (calls != [] ==> calls[|calls| - 1].onChain <= call.onChain)
    ensures AllSound(calls + [call])
    ensures Successes(calls + [call]) == Successes(calls) + if call.ok then 1 else 0
  {
    hide Sound, Successes;
    var after := calls + [call];
    assert forall i :: 0 <= i < |calls| ==> after[i] == calls[i] && calls[i].onChain <= call.onChain;
    SuccessesSnoc(calls, call);
  }

  lemma {:induction false} SuccessesSnoc(calls: seq<Call>, call: Call)
    ensures Successes(calls + [call]) == Successes(calls) + if call.ok then 1 else 0
  {
    assert (calls + [call])[..|calls|] == calls;
  }

  method CallOnce(signer: Signer, chain: Chain, mode: Strategy, builds: nat -> bool) returns (ok: bool, ghost call: Call)
    requires signer.Tracks(chain)
    modifies signer, chain
    ensures signer.Tracks(chain) && Sound(call) && call.ok == ok && old(chain.sequence) <= call.onChain
    ensures call.loaded == signer.seqLoaded && call.cached == signer.nextSeq && call.onChain == chain.sequence
    ensures old(chain.executed) + (if ok then 1 else 0) <= chain.executed <= old(chain.executed) + 1
  {
    ghost var t;
    ok, t := signer.BroadcastMsgsForOrg(chain, mode, builds);
    call := Call(ok, if t.Reloads() then 1 else 0, signer.seqLoaded, signer.nextSeq, chain.sequence);
  }

  /** Any number of calls, whatever the chain answers to each. */
  method AnyRun(signer: Signer, chain: Chain, modes: seq<Strategy>, builds: nat -> bool) returns (oks: seq<bool>, ghost calls: seq<Call>)
    requires signer.Tracks(chain)
    modifies signer, chain
    ensures signer.Tracks(chain) && AllSound(calls)
    ensures |oks| == |calls| == |modes| && forall i :: 0 <= i < |calls| ==> calls[i].ok == oks[i]
    ensures modes != [] ==> calls[|calls| - 1].cached == signer.nextSeq && calls[|calls| - 1].onChain == chain.sequence
    ensures old(chain.executed) + Successes(calls) <= chain.executed <= old(chain.executed) + |modes|
  {
    hide AllSound, Sound, Successes;
    oks, calls := [], [];
    var i := 0;
    NoCalls();
    while i < |modes|
      invariant i <= |modes| && signer.Tracks(chain) && AllSound(calls)
      invariant |oks| == |calls| == i && forall j :: 0 <= j < i ==> calls[j].ok == oks[j]
      invariant i > 0 ==> calls[i - 1].cached == signer.nextSeq && calls[i - 1].onChain == chain.sequence
      invariant old(chain.executed) + Successes(calls) <= chain.executed <= old(chain.executed) + i
    {
      var ok;
      ghost var call;
      ok, call := CallOnce(signer, chain, modes[i], builds);
      CallsSnoc(calls, call);
      oks, calls := oks + [ok], calls + [call];
      i := i + 1;
    }
  }

  lemma NoCalls()
    ensures AllSound([]) && Successes([]) == 0
  {
  }
}
