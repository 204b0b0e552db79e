/** Admission of paid operations (tools/chat-eval-budget.py). Money is an exact non-negative real. */
module Budget {
  import opened Outcomes
  import opened Arithmetic
  import opened Whitespace

  const CAP := 20.0
  const MAX_AUTHORIZED_CAP := 30.0
  const HISTORICAL_FLOOR := 0.957927619
  const SCOPE := "jup035-cumulative-all-providers"

  /** RESERVED, COST_UNKNOWN_RESERVED and COST_OBSERVED. */
  datatype CostState = Untouched | Retained | Settled

  datatype Terminal = Completed | Failed | Cancelled

  datatype Proof = Proof(operation: string, state: Terminal, digest: string)

  datatype Reservation = Reservation(
    reserved: real, maximum: Option<real>, evidence: string, admittedAt: real,
    state: CostState, failure: Option<Proof>, completed: Option<Proof>)

  /** The audited claim that the ledger holds the complete history: the set of its request ids. */
  datatype Coverage = Coverage(floor: real, requests: set<string>)

  datatype Snapshot = Snapshot(
    observedAt: real, scope: string, evidence: string, cumulative: real, coverage: Option<Coverage>)

  datatype Refusal =
    | BadCap | StaleAccounting | UnverifiedScope | InvalidCost | BelowFloor
    | DuplicateRequest | BadBound | IncompleteHistory | InsufficientBudget

  datatype Admission = Admitted(reservation: Reservation) | Refused(why: Refusal)

  /** Sum of every reserved amount. */
  function Outstanding(held: seq<Reservation>): real {
    if held == [] then 0.0
    else Outstanding(held[..|held| - 1]) + held[|held| - 1].reserved
  }

  /** The part of it that belongs to settled reservations. */
  function SettledPart(held: seq<Reservation>): real {
    if held == [] then 0.0
    else SettledPart(held[..|held| - 1]) +
         if held[|held| - 1].state == Settled then held[|held| - 1].reserved else 0.0
  }

  predicate AllMoney(held: seq<Reservation>) {
    forall i | 0 <= i < |held| :: held[i].reserved >= 0.0
  }

  function AdmissionCap(authorized: Option<real>): Option<real> {
    match authorized
    case None => Some(CAP)
    case Some(cap) => if 0.0 < cap <= MAX_AUTHORIZED_CAP then Some(cap) else None
  }

  /** The amount `admit` compares with the cap, for a history whose coverage claim was accepted or absent. */
  function Exposure(snapshot: Snapshot, held: seq<Reservation>): real {
    if snapshot.coverage.None? then snapshot.cumulative + Outstanding(held)
    else Max(snapshot.cumulative, HISTORICAL_FLOOR + SettledPart(held)) + (Outstanding(held) - SettledPart(held))
  }

  /** Nothing is left after `strip`. */
  predicate IsBlank(t: string) {
    forall c | c in t :: IsSpace(c)
  }

  function Admit(snapshot: Snapshot, requests: set<string>, held: seq<Reservation>,
                 request: string, bound: real, now: real, authorized: Option<real>): Admission
  {
    var cap := AdmissionCap(authorized);
    if cap.None? then Refused(BadCap)
    else if !(0.0 <= now - snapshot.observedAt <= 30.0) then Refused(StaleAccounting)
    else if snapshot.scope != SCOPE || snapshot.evidence == "" then Refused(UnverifiedScope)
    else if snapshot.cumulative < 0.0 then Refused(InvalidCost)
    else if snapshot.cumulative < HISTORICAL_FLOOR then Refused(BelowFloor)
    else if IsBlank(request) || request in requests then Refused(DuplicateRequest)
    else if bound <= 0.0 then Refused(BadBound)
    else if !AllMoney(held) then Refused(InvalidCost)
    else if snapshot.coverage.Some? && snapshot.coverage.value != Coverage(HISTORICAL_FLOOR, requests)
    then Refused(IncompleteHistory)
    else if Exposure(snapshot, held) + bound > cap.value then Refused(InsufficientBudget)
    else Admitted(Reservation(bound, None, snapshot.evidence, now, Untouched, None, None))
  }

  lemma {:induction false} OutstandingUpdate(held: seq<Reservation>, i: nat, r: Reservation)
    requires i < |held|
    ensures Outstanding(held[i := r]) == Outstanding(held) - held[i].reserved + r.reserved
  {
    var n := |held| - 1;
    if i == n {
      assert held[i := r][..n] == held[..n];
    } else {
      OutstandingUpdate(held[..n], i, r);
      assert held[i := r][..n] == held[..n][i := r];
    }
  }

  lemma {:induction false} SettledPartUpdate(held: seq<Reservation>, i: nat, r: Reservation)
    requires i < |held|
    ensures SettledPart(held[i := r])
            == SettledPart(held) - (if held[i].state == Settled then held[i].reserved else 0.0)
               + (if r.state == Settled then r.reserved else 0.0)
  {
    var n := |held| - 1;
    if i == n {
      assert held[i := r][..n] == held[..n];
    } else {
      SettledPartUpdate(held[..n], i, r);
      assert held[i := r][..n] == held[..n][i := r];
    }
  }

  lemma {:induction false} OutstandingAppend(held: seq<Reservation>, r: Reservation)
    ensures Outstanding(held + [r]) == Outstanding(held) + r.reserved
  {
    assert (held + [r])[..|held|] == held;
  }

  lemma {:induction false} SettledWithinOutstanding(held: seq<Reservation>)
    requires AllMoney(held)
    ensures 0.0 <= SettledPart(held) <= Outstanding(held)
  {
    if held != [] {
      SettledWithinOutstanding(held[..|held| - 1]);
    }
  }

  /** What a covered or default history may still spend, under each of the two upper bounds. */
  predicate Fits(snapshot: Snapshot, held: seq<Reservation>, bound: real, cap: real) {
    if snapshot.coverage.None? then snapshot.cumulative + Outstanding(held) + bound <= cap
    else
      && HISTORICAL_FLOOR + Outstanding(held) + bound <= cap
      && snapshot.cumulative + (Outstanding(held) - SettledPart(held)) + bound <= cap
  }

  /**
    Exactly when an operation is admitted: accounting at most thirty seconds old, of the cumulative scope and with
    evidence, not below the confirmed floor; a new, named request with a positive bound; a coverage claim, if any, about
    this very history; and room under the authorised cap of at most 30, which is 20 unless another is given.
   */
  lemma AdmissionExactly(snapshot: Snapshot, requests: set<string>, held: seq<Reservation>,
                         request: string, bound: real, now: real, authorized: Option<real>)
    ensures var cap := if authorized.None? then 20.0 else authorized.value;
            Admit(snapshot, requests, held, request, bound, now, authorized).Admitted?
            <==> && 0.0 < cap <= 30.0
                 && snapshot.observedAt <= now <= snapshot.observedAt + 30.0
                 && snapshot.scope == "jup035-cumulative-all-providers" && snapshot.evidence != ""
                 && snapshot.cumulative >= 0.957927619
                 && request !in requests && (exists c | c in request :: !IsSpace(c))
                 && bound > 0.0 && (forall i | 0 <= i < |held| :: held[i].reserved >= 0.0)
                 && (snapshot.coverage.Some? ==>
                       snapshot.coverage.value.floor == 0.957927619 && snapshot.coverage.value.requests == requests)
                 && Fits(snapshot, held, bound, cap)
  {
    hide IsSpace, Outstanding, SettledPart;
  }

  /**
    In either accounting mode an accepted operation is new, is held for its entire bound, and leaves the historical
    floor plus every reservation within the cap it was admitted under.
   */
  lemma AdmissionWithinCap(snapshot: Snapshot, requests: set<string>, held: seq<Reservation>,
                           request: string, bound: real, now: real, authorized: Option<real>)
    requires Admit(snapshot, requests, held, request, bound, now, authorized).Admitted?
    ensures AdmissionCap(authorized).Some? && request !in requests && bound > 0.0
    ensures var r := Admit(snapshot, requests, held, request, bound, now, authorized).reservation;
            r.reserved == bound && r.state == Untouched && r.failure.None? && r.completed.None?
    ensures HISTORICAL_FLOOR + Outstanding(held) + bound <= AdmissionCap(authorized).value <= MAX_AUTHORIZED_CAP
  {
    SettledWithinOutstanding(held);
  }

  /**
    An accepted coverage claim only ever relaxes admission: whatever the default mode accepts stays accepted with the
    same reservation, and it refuses for lack of money exactly when floor-based exposure exceeds the cap.
  */
  lemma CoverageNeverStricter(snapshot: Snapshot, requests: set<string>, held: seq<Reservation>,
                              request: string, bound: real, now: real, authorized: Option<real>)
    requires snapshot.coverage.None?
    ensures var covered := snapshot.(coverage := Some(Coverage(HISTORICAL_FLOOR, requests)));
            var before := Admit(snapshot, requests, held, request, bound, now, authorized);
            var after := Admit(covered, requests, held, request, bound, now, authorized);
            && (before.Admitted? ==> after == before)
            && (before.Refused? && before.why != InsufficientBudget ==> after == before)
            && (before == Refused(InsufficientBudget) ==>
                  (after.Admitted? <==>
                    && snapshot.cumulative + (Outstanding(held) - SettledPart(held)) + bound
                       <= AdmissionCap(authorized).value
                    && HISTORICAL_FLOOR + Outstanding(held) + bound <= AdmissionCap(authorized).value))
  {
    if AllMoney(held) {
      SettledWithinOutstanding(held);
    }
  }

  // ----- Bounds and reports -----

  /** One attempt of the service: at most two model calls, whose tokens are billed per million. */
  datatype Attempt = Attempt(inputTokens: nat, outputTokens: nat)

  function OperationBound(inputTokens: nat, inputPrice: real, outputPrice: real, auxiliary: real): Option<real> {
    if inputTokens == 0 || inputPrice < 0.0 || outputPrice < 0.0 || auxiliary < 0.0 then None
    else Some(4.0 * (inputTokens as real * inputPrice + 3200.0 * outputPrice) / 1000000.0 + auxiliary)
  }

  function AttemptCost(inputTokens: nat, outputTokens: nat, inputPrice: real, outputPrice: real): real {
    (inputTokens as real * inputPrice + outputTokens as real * outputPrice) / 1000000.0
  }

  function Billed(attempts: seq<Attempt>, inputPrice: real, outputPrice: real): real {
    if attempts == [] then 0.0
    else Billed(attempts[1..], inputPrice, outputPrice) +
         AttemptCost(attempts[0].inputTokens, attempts[0].outputTokens, inputPrice, outputPrice)
  }

  lemma Dearer(tokens: nat, limit: nat, price: real)
    requires tokens <= limit && price >= 0.0
    ensures 0.0 <= tokens as real * price <= limit as real * price
  {
    assert limit as real * price - tokens as real * price == (limit as real - tokens as real) * price;
  }

  lemma PerMillion(a: real, b: real, c: real, d: real)
    requires 0.0 <= a <= c && 0.0 <= b <= d
    ensures 0.0 <= (a + b) / 1000000.0 <= (c + d) / 1000000.0
  {
  }

  lemma AttemptCostMonotone(a: Attempt, limit: nat, most: nat, inputPrice: real, outputPrice: real)
    requires inputPrice >= 0.0 && outputPrice >= 0.0
    requires a.inputTokens <= limit && a.outputTokens <= most
    ensures 0.0 <= AttemptCost(a.inputTokens, a.outputTokens, inputPrice, outputPrice)
            <= AttemptCost(limit, most, inputPrice, outputPrice)
  {
    Dearer(a.inputTokens, limit, inputPrice);
    Dearer(a.outputTokens, most, outputPrice);
    PerMillion(a.inputTokens as real * inputPrice, a.outputTokens as real * outputPrice,
               limit as real * inputPrice, most as real * outputPrice);
  }

  function Times(n: nat, unit: real): real {
    n as real * unit
  }

  lemma OneMore(n: nat, unit: real)
    ensures Times(n + 1, unit) == Times(n, unit) + unit
  {
    assert (n + 1) as real == n as real + 1.0;
  }

  lemma AtMostFour(n: nat, unit: real)
    requires n <= 4 && unit >= 0.0
    ensures Times(n, unit) <= 4.0 * unit
  {
    Dearer(n, 4, unit);
  }

  lemma {:induction false} BilledPerAttempt(attempts: seq<Attempt>, limit: nat, inputPrice: real, outputPrice: real)
    requires inputPrice >= 0.0 && outputPrice >= 0.0
    requires forall a | a in attempts :: a.inputTokens <= limit && a.outputTokens <= 3200
    ensures Billed(attempts, inputPrice, outputPrice)
            <= Times(|attempts|, AttemptCost(limit, 3200, inputPrice, outputPrice))
  {
    if attempts != [] {
      BilledPerAttempt(attempts[1..], limit, inputPrice, outputPrice);
      AttemptCostMonotone(attempts[0], limit, 3200, inputPrice, outputPrice);
      var unit := AttemptCost(limit, 3200, inputPrice, outputPrice);
      hide AttemptCost, Times;
      OneMore(|attempts[1..]|, unit);
    }
  }

  /** Every operation of at most four attempts, within the per-attempt token limits, costs at most its bound. */
  lemma OperationBoundCovers(attempts: seq<Attempt>, limit: nat, inputPrice: real, outputPrice: real,
                             auxiliary: real, auxiliaryBound: real)
    requires OperationBound(limit, inputPrice, outputPrice, auxiliaryBound).Some?
    requires |attempts| <= 4 && auxiliary <= auxiliaryBound
    requires forall a | a in attempts :: a.inputTokens <= limit && a.outputTokens <= 3200
    ensures Billed(attempts, inputPrice, outputPrice) + auxiliary
            <= OperationBound(limit, inputPrice, outputPrice, auxiliaryBound).value
  {
    BilledPerAttempt(attempts, limit, inputPrice, outputPrice);
    AttemptCostMonotone(Attempt(limit, 3200), limit, 3200, inputPrice, outputPrice);
    BoundIsFourAttempts(limit, inputPrice, outputPrice, auxiliaryBound);
    hide AttemptCost, Billed, OperationBound, Times;
    AtMostFour(|attempts|, AttemptCost(limit, 3200, inputPrice, outputPrice));
  }

  /** And no smaller bound would do: some operation within the limits costs exactly that much. */
  lemma OperationBoundIsReached(limit: nat, inputPrice: real, outputPrice: real, auxiliaryBound: real)
    requires OperationBound(limit, inputPrice, outputPrice, auxiliaryBound).Some?
    ensures exists attempts: seq<Attempt> ::
              && |attempts| <= 4 && (forall a | a in attempts :: a.inputTokens <= limit && a.outputTokens <= 3200)
              && Billed(attempts, inputPrice, outputPrice) + auxiliaryBound
                 == OperationBound(limit, inputPrice, outputPrice, auxiliaryBound).value
  {
    var a := Attempt(limit, 3200);
    BoundIsFourAttempts(limit, inputPrice, outputPrice, auxiliaryBound);
    hide AttemptCost, OperationBound;
    var unit := AttemptCost(limit, 3200, inputPrice, outputPrice);
    OneBilled([], a, inputPrice, outputPrice);
    OneBilled([a], a, inputPrice, outputPrice);
    OneBilled([a, a], a, inputPrice, outputPrice);
    OneBilled([a, a, a], a, inputPrice, outputPrice);
    assert [a] + [] == [a] && [a] + [a] == [a, a] && [a] + [a, a] == [a, a, a] && [a] + [a, a, a] == [a, a, a, a];
    assert Billed([a, a, a, a], inputPrice, outputPrice) == 4.0 * unit;
  }

  lemma OneBilled(attempts: seq<Attempt>, a: Attempt, inputPrice: real, outputPrice: real)
    ensures Billed([a] + attempts, inputPrice, outputPrice)
            == Billed(attempts, inputPrice, outputPrice)
               + AttemptCost(a.inputTokens, a.outputTokens, inputPrice, outputPrice)
  {
    hide AttemptCost;
    assert ([a] + attempts)[1..] == attempts;
  }

  lemma BoundIsFourAttempts(limit: nat, inputPrice: real, outputPrice: real, auxiliaryBound: real)
    requires OperationBound(limit, inputPrice, outputPrice, auxiliaryBound).Some?
    ensures OperationBound(limit, inputPrice, outputPrice, auxiliaryBound).value
            == 4.0 * AttemptCost(limit, 3200, inputPrice, outputPrice) + auxiliaryBound
  {
  }

  datatype Report = Report(
    attempt: string, operation: string, usageEvent: bool, complete: bool,
    attemptedLegs: int, reportedLegs: int, requests: nat, cost: real)

  datatype Operation = Operation(id: string, state: Option<Terminal>, attemptCount: int, currentAttempt: string)

  predicate ReportOk(operation: Operation, report: Report) {
    && report.attempt != "" && report.operation == operation.id && report.usageEvent && report.complete
    && report.attemptedLegs in {1, 2} && report.reportedLegs == report.attemptedLegs
    && report.requests == report.attemptedLegs && report.cost >= 0.0
  }

  /** Every attempt of a terminal operation is reported exactly once, the current one among them. */
  ghost predicate FullyReported(operation: Operation, reports: seq<Report>) {
    && operation.state.Some?
    && 1 <= operation.attemptCount <= 4 && |reports| == operation.attemptCount
    && (forall i | 0 <= i < |reports| :: ReportOk(operation, reports[i]))
    && (forall i, j | 0 <= i < j < |reports| :: reports[i].attempt != reports[j].attempt)
    && (exists i | 0 <= i < |reports| :: reports[i].attempt == operation.currentAttempt)
  }

  function ReportedCost(reports: seq<Report>): real {
    if reports == [] then 0.0
    else ReportedCost(reports[..|reports| - 1]) + reports[|reports| - 1].cost
  }

  /** The sum of the reports, however the history is split. */
  lemma {:induction false} ReportedCostIsSum(a: seq<Report>, b: seq<Report>)
    ensures ReportedCost(a + b) == ReportedCost(a) + ReportedCost(b)
    ensures |b| == 1 ==> ReportedCost(b) == b[0].cost
  {
    if b == [] {
      assert a + b == a;
    } else {
      ReportedCostIsSum(a, b[..|b| - 1]);
      assert (a + b)[..|a + b| - 1] == a + b[..|b| - 1];
    }
  }

  method CompletedAttemptCost(operation: Operation, reports: seq<Report>) returns (cost: Option<real>)
    ensures cost.Some? <==> FullyReported(operation, reports)
    ensures cost.Some? ==> cost.value == ReportedCost(reports) && cost.value >= 0.0
  {
    if operation.state.None? || !(1 <= operation.attemptCount <= 4) || |reports| != operation.attemptCount {
      return None;
    }
    var seen: set<string> := {};
    var total := 0.0;
    for i := 0 to |reports|
      invariant seen == set k | 0 <= k < i :: reports[k].attempt
      invariant forall k | 0 <= k < i :: ReportOk(operation, reports[k])
      invariant forall j, k | 0 <= j < k < i :: reports[j].attempt != reports[k].attempt
      invariant total == ReportedCost(reports[..i]) && total >= 0.0
    {
      if !ReportOk(operation, reports[i]) || reports[i].attempt in seen {
        return None;
      }
      seen := seen + {reports[i].attempt};
      total := total + reports[i].cost;
      assert reports[..i + 1][..i] == reports[..i];
    }
    assert reports[..|reports|] == reports;
    if operation.currentAttempt !in seen {
      return None;
    }
    return Some(total);
  }

  // ----- Retained reservations -----

  predicate IsHexDigest(digest: string) {
    |digest| == 64 && forall c | c in digest :: '0' <= c <= '9' || 'a' <= c <= 'f'
  }

  /** What the checks read of a terminal public receipt. */
  datatype Receipt = Receipt(
    operation: string, state: Terminal, conversation: Option<string>, verified: bool, digest: string)

  predicate ProofOk(r: Reservation, proof: Proof, state: Terminal, operation: string, receipt: Option<Receipt>) {
    && r.state == Retained
    && r.reserved > 0.0 && r.maximum == Some(r.reserved)
    && proof.state == state && proof.operation == operation && IsHexDigest(proof.digest)
    && (receipt.Some? ==>
          && receipt.value.state == state && receipt.value.operation == operation
          && receipt.value.verified && receipt.value.digest == proof.digest)
  }

  /** The check that an unknown cost still holds its entire maximum. */
  predicate RetainedCost(r: Reservation, operation: string, receipt: Option<Receipt>) {
    match r.completed
    case Some(proof) => r.failure.None? && ProofOk(r, proof, Completed, operation, receipt)
    case None => r.failure.Some? && ProofOk(r, r.failure.value, Failed, operation, receipt)
  }
}
