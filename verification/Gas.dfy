/** Gas limits, fees and the out-of-gas retry loop (wevibe-hub/internal/chain/broadcast.go). */
module Gas {
  // Machine integers wrap around where Go's do; the lemmas show where they never get that far.

  import opened Wrappers
  import opened Powers

  const TWO64: nat := 0x1_0000_0000_0000_0000
  const MAX_UINT64: nat := TWO64 - 1
  const MAX_INT64: nat := 0x7fff_ffff_ffff_ffff

  type U64 = x: nat | x < TWO64 witness 0

  function Wrap(x: nat): U64 {
    x % TWO64
  }

  /** A 64-bit signed result. */
  function Signed(x: int): int {
    (x + 0x8000_0000_0000_0000) % TWO64 - 0x8000_0000_0000_0000
  }

  // ----- gas limit -----

  datatype Strategy = SimulateBuffer | SimulateRetry

  /** None is an error return. */
  function GasLimitFromSimulation(simulatedGas: U64, mode: Strategy): Option<U64> {
    if simulatedGas == 0 then None
    else match mode
      case SimulateBuffer =>
        if simulatedGas > MAX_UINT64 / 7 then None
        else
          var scaled := Wrap(simulatedGas * 7);
          var rounded := if scaled % 5 != 0 then Wrap(scaled + (5 - scaled % 5)) else scaled;
          Some(rounded / 5)
      case SimulateRetry =>
        if simulatedGas > MAX_UINT64 / 2 then None else Some(Wrap(simulatedGas * 2))
  }

  /** The least limit that is at least 7/5 of the simulated gas. */
  predicate IsCeiling(limit: nat, gas: nat) {
    5 * limit >= 7 * gas && 5 * limit < 7 * gas + 5
  }

  /** Buffer mode rounds 7/5 of the gas up, for exactly the gas values whose product with 7 fits; the
      rounding addition cannot wrap, because the largest 64-bit number is a multiple of 5. */
  lemma BufferLimitExact(gas: U64)
    ensures GasLimitFromSimulation(gas, SimulateBuffer).Some? <==> 0 < gas && 7 * gas <= MAX_UINT64
    ensures GasLimitFromSimulation(gas, SimulateBuffer).Some? ==>
              IsCeiling(GasLimitFromSimulation(gas, SimulateBuffer).value, gas)
  {
    assert MAX_UINT64 % 5 == 0;
    if 0 < gas && gas <= MAX_UINT64 / 7 {
      var scaled := 7 * gas;
      assert gas * 7 == scaled;
    }
  }

  /** Retry mode doubles, without wrapping. */
  lemma RetryLimitExact(gas: U64)
    ensures GasLimitFromSimulation(gas, SimulateRetry) == if 0 < gas && 2 * gas <= MAX_UINT64 then Some(2 * gas) else None
  {
  }

  // ----- fee -----

  const DEFAULT_FEE: int := 2000

  function FeeAmountFromGasLimit(gasLimit: U64): Option<int> {
    if gasLimit > MAX_INT64 then None
    else if gasLimit > MAX_INT64 / 25 then None
    else
      var product := Signed(gasLimit * 25);
      var fee := product / 1000;
      var rounded := if product % 1000 != 0 then Signed(fee + 1) else fee;
      Some(if rounded < DEFAULT_FEE then DEFAULT_FEE else rounded)
  }

  function CeilingOf40(gas: nat): nat {
    (gas + 39) / 40
  }

  /** A fortieth of the limit, rounded up, and never under the default fee; refused exactly above
      MaxInt64 / 25. */
  lemma FeeExact(gasLimit: U64)
    ensures FeeAmountFromGasLimit(gasLimit)
         == if gasLimit > MAX_INT64 / 25 then None
            else Some(if CeilingOf40(gasLimit) < 2000 then 2000 else CeilingOf40(gasLimit))
  {
    if gasLimit <= MAX_INT64 / 25 {
      Fortieth(gasLimit);
    }
  }

  lemma Fortieth(gas: nat)
    ensures (gas * 25) / 1000 == gas / 40
    ensures gas * 25 % 1000 == 0 <==> gas % 40 == 0
    ensures CeilingOf40(gas) == gas / 40 + if gas % 40 != 0 then 1 else 0
  {
    assert gas == 40 * (gas / 40) + gas % 40;
    assert gas * 25 == 1000 * (gas / 40) + 25 * (gas % 40);
  }

  /** The fee for simulated gas. */
  function FeeFor(simulatedGas: U64, mode: Strategy): Option<int> {
    match GasLimitFromSimulation(simulatedGas, mode)
    case None => None
    case Some(limit) => FeeAmountFromGasLimit(limit)
  }

  /** More gas never costs less, and whatever is accepted stays accepted with less gas. */
  lemma FeeMonotone(a: U64, b: U64, mode: Strategy)
    requires 0 < a <= b && FeeFor(b, mode).Some?
    ensures FeeFor(a, mode).Some? && FeeFor(a, mode).value <= FeeFor(b, mode).value
  {
    hide GasLimitFromSimulation, FeeAmountFromGasLimit;
    BufferLimitExact(a);
    BufferLimitExact(b);
    RetryLimitExact(a);
    RetryLimitExact(b);
    var l, m := GasLimitFromSimulation(a, mode).value, GasLimitFromSimulation(b, mode).value;
    FeeExact(l);
    FeeExact(m);
  }

  // ----- the retry loop -----

  function NextEscalatedGasLimit(gasUsed: U64): Option<U64> {
    if gasUsed == 0 then None
    else if gasUsed > MAX_UINT64 / 2 then None
    else Some(Wrap(gasUsed * 2))
  }

  lemma EscalationExact(gasUsed: U64)
    ensures NextEscalatedGasLimit(gasUsed) == if 0 < gasUsed && 2 * gasUsed <= MAX_UINT64 then Some(2 * gasUsed) else None
  {
  }

  /** What one broadcast comes to. `saysOutOfGas` tells whether its log does. */
  datatype Response =
    | Failed(error: nat)
    | Result(code: nat, saysOutOfGas: bool, gasUsed: U64, txHash: nat)

  predicate Succeeded(r: Response) {
    r.Result? && r.code == 0
  }

  predicate OutOfGas(r: Response) {
    r.Result? && r.code != 0 && r.saysOutOfGas
  }

  datatype Attempt = Attempt(number: nat, gasLimit: U64, response: Response)

  datatype Outcome = Sent(txHash: nat) | BroadcastFailed | DeliverFailed | OutOfRetries | CannotEscalate | Exhausted

  /** The attempts of one run, against a broadcaster that may answer anything. */
  ghost predicate Chained(attempts: seq<Attempt>, initial: U64, broadcast: (nat, U64) -> Response) {
    && (forall i :: 0 <= i < |attempts| ==>
          && attempts[i].number == i + 1
          && attempts[i].response == broadcast(i + 1, attempts[i].gasLimit))
    && (attempts != [] ==> attempts[0].gasLimit == initial)
    && (forall i :: 0 < i < |attempts| ==> Escalates(attempts[i - 1], attempts[i]))
  }

  /** Only an out-of-gas answer leads to another attempt, with exactly twice the gas it used. */
  ghost predicate Escalates(before: Attempt, after: Attempt) {
    OutOfGas(before.response) && before.response.gasUsed > 0 && after.gasLimit == 2 * before.response.gasUsed
  }

  /** How a run that stopped after the last attempt ends. */
  function Verdict(last: Response, number: nat, maxRetries: int): Outcome {
    if last.Failed? then BroadcastFailed
    else if last.code == 0 then Sent(last.txHash)
    else if !OutOfGas(last) then DeliverFailed
    else if number > maxRetries then OutOfRetries
    else CannotEscalate
  }

  /** Go refuses to make a slice of negative capacity, so fewer than -1 retries panic. */
  method RunSimulateRetryBroadcast(initialGasLimit: U64, maxRetries: int, broadcast: (nat, U64) -> Response)
    returns (outcome: Outcome, attempts: seq<Attempt>)
    requires maxRetries >= -1
    ensures Chained(attempts, initialGasLimit, broadcast)
    ensures |attempts| <= maxRetries + 1
    ensures outcome == Exhausted <==> maxRetries == -1
    ensures attempts == [] <==> maxRetries == -1
    ensures attempts != [] ==> outcome == Verdict(attempts[|attempts| - 1].response, |attempts|, maxRetries)
    ensures outcome == CannotEscalate ==> NextEscalatedGasLimit(attempts[|attempts| - 1].response.gasUsed).None?
    ensures outcome.Sent? <==> attempts != [] && Succeeded(attempts[|attempts| - 1].response)
  {
    hide NextEscalatedGasLimit, Chained;
    var gasLimit := initialGasLimit;
    attempts := [];
    NoAttempts(initialGasLimit, broadcast);
    var attempt := 1;
    while attempt <= maxRetries + 1
      invariant 1 <= attempt <= maxRetries + 2 && |attempts| == attempt - 1
      invariant Chained(attempts, initialGasLimit, broadcast)
      invariant attempts == [] ==> gasLimit == initialGasLimit
      invariant attempts != [] ==> attempt <= maxRetries + 1
      invariant attempts != [] ==>
                  var last := attempts[|attempts| - 1].response;
                  OutOfGas(last) && last.gasUsed > 0 && gasLimit == 2 * last.gasUsed
    {
      var result := broadcast(attempt, gasLimit);
      OneMore(attempts, Attempt(attempt, gasLimit, result), initialGasLimit, broadcast);
      attempts := attempts + [Attempt(attempt, gasLimit, result)];
      if result.Failed? {
        return BroadcastFailed, attempts;
      }
      if result.code == 0 {
        return Sent(result.txHash), attempts;
      }
      if !OutOfGas(result) {
        return DeliverFailed, attempts;
      }
      if attempt > maxRetries {
        return OutOfRetries, attempts;
      }
      var next := NextEscalatedGasLimit(result.gasUsed);
      EscalationExact(result.gasUsed);
      if next.None? {
        return CannotEscalate, attempts;
      }
      gasLimit := next.value;
      attempt := attempt + 1;
    }
    return Exhausted, attempts;
  }

  lemma NoAttempts(initial: U64, broadcast: (nat, U64) -> Response)
    ensures Chained([], initial, broadcast)
  {
  }

  lemma OneMore(attempts: seq<Attempt>, a: Attempt, initial: U64, broadcast: (nat, U64) -> Response)
    requires Chained(attempts, initial, broadcast)
    requires a.number == |attempts| + 1 && a.response == broadcast(a.number, a.gasLimit)
    requires if attempts == [] then a.gasLimit == initial else Escalates(attempts[|attempts| - 1], a)
    ensures Chained(attempts + [a], initial, broadcast)
  {
  }

  /** When out-of-gas answers report at least the limit as used, limits at least double every time. */
  lemma {:induction false} LimitsGrow(attempts: seq<Attempt>, initial: U64, broadcast: (nat, U64) -> Response, i: nat)
    requires Chained(attempts, initial, broadcast) && i < |attempts|
    requires forall j :: 0 <= j < |attempts| && OutOfGas(attempts[j].response) ==>
               attempts[j].response.gasUsed >= attempts[j].gasLimit
    ensures attempts[i].gasLimit >= Pow2(i) * initial
  {
    if i > 0 {
      LimitsGrow(attempts, initial, broadcast, i - 1);
      assert Escalates(attempts[i - 1], attempts[i]);
    }
  }

  /** So a run cannot go on for 64 doublings: `Pow2(i) * initial` fits 64 bits for every attempt made. */
  lemma AttemptsBounded(attempts: seq<Attempt>, initial: U64, broadcast: (nat, U64) -> Response)
    requires Chained(attempts, initial, broadcast) && initial > 0
    requires forall j :: 0 <= j < |attempts| && OutOfGas(attempts[j].response) ==>
               attempts[j].response.gasUsed >= attempts[j].gasLimit
    ensures |attempts| <= 64
  {
    if |attempts| > 64 {
      LimitsGrow(attempts, initial, broadcast, 64);
      SixtyFour();
    }
  }

  lemma SixtyFour()
    ensures Pow2(64) == TWO64
  {
    assert Pow2(8) == 0x100;
    Pow2Adds(8, 8);
    Pow2Adds(16, 16);
    Pow2Adds(32, 32);
  }

  /** The same run gives the same attempts: what a broadcaster answers fixes them. */
  lemma {:induction false} AttemptsDetermined(a: seq<Attempt>, b: seq<Attempt>, initial: U64,
                                              broadcast: (nat, U64) -> Response, i: nat)
    requires Chained(a, initial, broadcast) && Chained(b, initial, broadcast) && i < |a| && i < |b|
    ensures a[i] == b[i]
  {
    if i > 0 {
      AttemptsDetermined(a, b, initial, broadcast, i - 1);
      assert Escalates(a[i - 1], a[i]) && Escalates(b[i - 1], b[i]);
    }
  }
}
