/**
  From the prices to the cap: runs in which every bound is an `operation_bound`, the service does at most the work that
  was bounded, and every settlement rests on complete and truthful reports (tools/chat-eval-budget.py).
 */
module BilledService {
  import opened Outcomes
  import opened Budget
  import opened Ledger
  import opened Campaign
  import opened CampaignSteps
  import opened HonestService
  import Recovery

  /** What a request's bound is computed from. */
  datatype Terms = Terms(inputTokens: nat, inputPrice: real, outputPrice: real, auxiliaryBound: real)

  /** What the service does for it. */
  datatype Work = Work(attempts: seq<Attempt>, auxiliary: real)

  /** The terms of every request and the work it causes. */
  datatype Contract = Contract(terms: map<string, Terms>, work: map<string, Work>)

  function BoundOf(t: Terms): Option<real> {
    OperationBound(t.inputTokens, t.inputPrice, t.outputPrice, t.auxiliaryBound)
  }

  /** What that work truly costs at those prices. */
  function TrueCost(t: Terms, w: Work): real {
    Billed(w.attempts, t.inputPrice, t.outputPrice) + w.auxiliary
  }

  /** At most four attempts, each within the token limits, and the auxiliary cost within its bound. */
  predicate WithinTerms(t: Terms, w: Work) {
    && |w.attempts| <= 4 && 0.0 <= w.auxiliary <= t.auxiliaryBound
    && forall a | a in w.attempts :: a.inputTokens <= t.inputTokens && a.outputTokens <= 3200
  }

  predicate Agreed(c: Contract, request: string) {
    && request in c.terms && request in c.work
    && BoundOf(c.terms[request]).Some? && WithinTerms(c.terms[request], c.work[request])
  }

  /** Every attempt is reported for at least what it costs, and so is the auxiliary work. */
  predicate TruthfulReports(t: Terms, w: Work, reports: seq<Report>, auxiliary: real) {
    && |reports| == |w.attempts| && w.auxiliary <= auxiliary
    && forall i | 0 <= i < |reports| ::
         AttemptCost(w.attempts[i].inputTokens, w.attempts[i].outputTokens, t.inputPrice, t.outputPrice)
         <= reports[i].cost
  }

  /** The cost was computed by `reconcile_cost` from truthful reports. */
  ghost predicate Accounted(c: Contract, request: string, cost: real) {
    Agreed(c, request) ==>
      exists operation, reports, auxiliary ::
        && Charged(operation, reports, auxiliary) == Some(cost)
        && TruthfulReports(c.terms[request], c.work[request], reports, auxiliary)
  }

  /** The cost was computed by the recovery from calls the provider billed in full. */
  ghost predicate Recovered(c: Contract, entry: Row, cost: real) {
    Agreed(c, entry.request) ==>
      exists legs, sdk, calls, keys ::
        && Recovery.SettledFor(legs, sdk, calls, keys, entry.reservation.reserved) == Some(cost)
        && Billed(c.work[entry.request].attempts, c.terms[entry.request].inputPrice, c.terms[entry.request].outputPrice)
           <= Recovery.Upstream(calls)
        && c.work[entry.request].auxiliary <= keys.backendNow - keys.backendBefore
  }

  ghost predicate Fair(s: Sys, a: Action, c: Contract) {
    match a
    case Reserve(_, request, _, bound, _, _) => Agreed(c, request) && BoundOf(c.terms[request]) == Some(bound)
    case Seed(request, _, _, _, bound, _, _) => Agreed(c, request) && BoundOf(c.terms[request]) == Some(bound)
    case Send(p, operation, cost) =>
      (match PcOf(s, p)
       case Sending(request) =>
         && operation != "" && operation !in s.minted.Values
         && (Agreed(c, request) ==> cost == TrueCost(c.terms[request], c.work[request]))
       case _ => true)
    case Recover(p, answer) =>
      (match PcOf(s, p)
       case Recovering(request) => answer.Some? ==> request in s.minted && s.minted[request] == answer.value
       case _ => true)
    case Reconcile(p, cost) =>
      (match PcOf(s, p)
       case Accounting(request, _) => Accounted(c, request, cost)
       case _ => true)
    case Adjust(request, _, cost) => Accounted(c, request, cost)
    case Swap(entry, cost) => Recovered(c, entry, cost)
    case _ => true
  }

  ghost predicate FairRun(s: Sys, actions: seq<Action>, c: Contract)
    decreases |actions|
  {
    actions == [] || (Fair(s, actions[0], c) && FairRun(Do(s, actions[0]), actions[1..], c))
  }

  // ----- Reports cover the work -----

  lemma BilledNotNegative(attempts: seq<Attempt>, inputPrice: real, outputPrice: real)
    requires inputPrice >= 0.0 && outputPrice >= 0.0
    ensures Billed(attempts, inputPrice, outputPrice) >= 0.0
  {
    if attempts != [] {
      BilledNotNegative(attempts[1..], inputPrice, outputPrice);
      AttemptCostMonotone(attempts[0], attempts[0].inputTokens, attempts[0].outputTokens, inputPrice, outputPrice);
      hide AttemptCost;
    }
  }

  lemma {:induction false} BilledLast(attempts: seq<Attempt>, last: Attempt, inputPrice: real, outputPrice: real)
    ensures Billed(attempts + [last], inputPrice, outputPrice)
            == Billed(attempts, inputPrice, outputPrice)
               + AttemptCost(last.inputTokens, last.outputTokens, inputPrice, outputPrice)
  {
    hide AttemptCost;
    if attempts == [] {
      assert [last][1..] == [];
      assert [] + [last] == [last];
    } else {
      assert (attempts + [last])[1..] == attempts[1..] + [last];
      BilledLast(attempts[1..], last, inputPrice, outputPrice);
    }
  }

  lemma {:induction false} ReportsCover(t: Terms, w: Work, reports: seq<Report>, auxiliary: real)
    requires TruthfulReports(t, w, reports, auxiliary)
    ensures TrueCost(t, w) <= ReportedCost(reports) + auxiliary
    decreases |reports|
  {
    hide AttemptCost;
    if reports != [] {
      var n := |reports| - 1;
      var front := w.(attempts := w.attempts[..n]);
      ReportsCover(t, front, reports[..n], auxiliary);
      BilledLast(w.attempts[..n], w.attempts[n], t.inputPrice, t.outputPrice);
      assert w.attempts == w.attempts[..n] + [w.attempts[n]];
    }
  }

  lemma AccountedCovers(c: Contract, request: string, cost: real)
    requires Agreed(c, request) && Accounted(c, request, cost)
    ensures TrueCost(c.terms[request], c.work[request]) <= cost
  {
    var operation, reports, auxiliary :|
      && Charged(operation, reports, auxiliary) == Some(cost)
      && TruthfulReports(c.terms[request], c.work[request], reports, auxiliary);
    hide TruthfulReports;
    ReportsCover(c.terms[request], c.work[request], reports, auxiliary);
  }

  lemma RecoveredCovers(c: Contract, entry: Row, cost: real)
    requires Agreed(c, entry.request) && Recovered(c, entry, cost)
    ensures TrueCost(c.terms[entry.request], c.work[entry.request]) <= cost
  {
    var legs, sdk, calls, keys :|
      && Recovery.SettledFor(legs, sdk, calls, keys, entry.reservation.reserved) == Some(cost)
      && Billed(c.work[entry.request].attempts, c.terms[entry.request].inputPrice, c.terms[entry.request].outputPrice)
         <= Recovery.Upstream(calls)
      && c.work[entry.request].auxiliary <= keys.backendNow - keys.backendBefore;
    Recovery.SettlementCoversEveryAccount(legs, sdk, calls, keys, entry.reservation.reserved);
  }

  lemma BoundCovers(c: Contract, request: string)
    requires Agreed(c, request)
    ensures 0.0 <= TrueCost(c.terms[request], c.work[request]) <= BoundOf(c.terms[request]).value
  {
    var t, w := c.terms[request], c.work[request];
    OperationBoundCovers(w.attempts, t.inputTokens, t.inputPrice, t.outputPrice, w.auxiliary, t.auxiliaryBound);
    BilledNotNegative(w.attempts, t.inputPrice, t.outputPrice);
  }

  // ----- Every run -----

  ghost predicate RowAgreed(c: Contract, row: Row) {
    && Agreed(c, row.request)
    && (row.reservation.state == Untouched ==> BoundOf(c.terms[row.request]) == Some(row.reservation.reserved))
  }

  ghost predicate BillAgreed(c: Contract, s: Sys, request: string)
    requires request in s.billed
  {
    Agreed(c, request) && s.billed[request] == TrueCost(c.terms[request], c.work[request])
  }

  /** Every reservation that is still untouched is the bound of its terms, and every bill is the true cost. */
  ghost predicate ContractInv(s: Sys, c: Contract) {
    && (forall i | 0 <= i < |s.rows| :: RowAgreed(c, s.rows[i]))
    && (forall r | r in s.billed :: BillAgreed(c, s, r))
  }

  /** A row whose request was not sent yet still holds its bound. */
  lemma UnsentIsUntouched(s: Sys, i: nat)
    requires Inv(s) && HonestInv(s) && i < |s.rows| && s.rows[i].request !in s.sends
    ensures s.rows[i].reservation.state == Untouched
  {
    assert OperationOk(s, s.rows[i]) && RowOk(s.rows[i]);
  }

  lemma FairSend(s: Sys, p: nat, operation: string, cost: real, c: Contract)
    requires Inv(s) && HonestInv(s) && ContractInv(s, c) && Fair(s, Send(p, operation, cost), c) && PcOf(s, p).Sending?
    ensures Honest(s, Send(p, operation, cost))
  {
    SendingIsUnsent(s, p);
    var request := PcOf(s, p).request;
    var at := Locate(s.rows, request).value;
    assert RowAgreed(c, s.rows[at]);
    BoundCovers(c, request);
    forall i | 0 <= i < |s.rows| && s.rows[i].request == request
      ensures cost <= s.rows[i].reservation.reserved
    {
      UnsentIsUntouched(s, i);
      assert RowAgreed(c, s.rows[i]);
    }
  }

  lemma AccountedIsCovering(s: Sys, request: string, cost: real, c: Contract)
    requires ContractInv(s, c) && Accounted(c, request, cost)
    ensures Covers(s, request, cost)
  {
    if request in s.billed {
      assert BillAgreed(c, s, request);
      AccountedCovers(c, request, cost);
    }
  }

  lemma RecoveredIsCovering(s: Sys, entry: Row, cost: real, c: Contract)
    requires ContractInv(s, c) && Recovered(c, entry, cost)
    ensures Covers(s, entry.request, cost)
  {
    if entry.request in s.billed {
      assert BillAgreed(c, s, entry.request);
      RecoveredCovers(c, entry, cost);
    }
  }

  lemma FairIsHonest(s: Sys, a: Action, c: Contract)
    requires Inv(s) && HonestInv(s) && ContractInv(s, c) && Fair(s, a, c)
    ensures Honest(s, a)
  {
    hide Inv, HonestInv, ContractInv, Accounted, Recovered;
    match a
    case Send(p, operation, cost) =>
      if PcOf(s, p).Sending? {
        FairSend(s, p, operation, cost, c);
      }
    case Reconcile(p, cost) =>
      if PcOf(s, p).Accounting? {
        AccountedIsCovering(s, PcOf(s, p).request, cost, c);
      }
    case Adjust(request, _, cost) => AccountedIsCovering(s, request, cost, c);
    case Swap(entry, cost) => RecoveredIsCovering(s, entry, cost, c);
    case _ =>
  }

  /** Only an accepted reservation adds a row, and it holds its bound; only a sent request adds a bill. */
  lemma WhatIsNew(s: Sys, a: Action)
    requires Inv(s)
    ensures var t := Do(s, a);
            && |s.rows| <= |t.rows| <= |s.rows| + 1
            && (|t.rows| > |s.rows| ==>
                  && (a.Reserve? || a.Seed?) && t.rows[|s.rows|].request == a.request
                  && t.rows[|s.rows|].reservation.reserved == a.bound)
            && (if a.Send? && PcOf(s, a.p).Sending? then t.billed == s.billed[PcOf(s, a.p).request := a.cost]
                else t.billed == s.billed)
  {
    match a
    case Reserve(p, request, snapshot, bound, now, authorized) => NewReservation(s, a);
    case Seed(request, plan, sample, snapshot, bound, now, authorized) => NewReservation(s, a);
    case Send(p, operation, cost) =>
      hide Inv;
    case _ =>
      hide Inv;
      NothingNew(s, a);
  }

  lemma NothingNew(s: Sys, a: Action)
    requires !a.Reserve? && !a.Seed? && !a.Send?
    ensures |Do(s, a).rows| == |s.rows| && Do(s, a).billed == s.billed
  {
    hide ReserveTx, Decide, After, Locate, Settle, IsHexDigest;
    match a
    case Attach(_, _) =>
      hide DispatchTx, ObserveTx, ReconcileTx, RetainTx, SwapTx;
    case Dispatch(_) =>
      hide AttachTx, ObserveTx, ReconcileTx, RetainTx, SwapTx;
    case Observed(_) =>
      hide AttachTx, DispatchTx, ReconcileTx, RetainTx, SwapTx;
    case Retain(_, _) =>
      hide AttachTx, DispatchTx, ObserveTx, ReconcileTx, SwapTx;
    case Swap(_, _) =>
      hide AttachTx, DispatchTx, ObserveTx, ReconcileTx, RetainTx;
    case _ =>
      hide AttachTx, DispatchTx, ObserveTx, RetainTx, SwapTx;
  }

  lemma NewReservation(s: Sys, a: Action)
    requires a.Reserve? || a.Seed?
    ensures var t := Do(s, a);
            && |s.rows| <= |t.rows| <= |s.rows| + 1 && t.billed == s.billed
            && (|t.rows| > |s.rows| ==>
                  && t.rows[|s.rows|].request == a.request && t.rows[|s.rows|].reservation.reserved == a.bound)
  {
    hide AdmissionCap, Exposure, HasSample, Outstanding;
  }

  lemma RowsStayAgreed(s: Sys, t: Sys, c: Contract)
    requires ContractInv(s, c) && TableEvolves(s.rows, t.rows) && |t.rows| <= |s.rows| + 1
    requires |t.rows| > |s.rows| ==> RowAgreed(c, t.rows[|s.rows|])
    ensures forall i | 0 <= i < |t.rows| :: RowAgreed(c, t.rows[i])
  {
    hide Agreed, BoundOf;
    forall i | 0 <= i < |t.rows|
      ensures RowAgreed(c, t.rows[i])
    {
      if i < |s.rows| {
        assert RowAgreed(c, s.rows[i]) && Evolves(s.rows[i], t.rows[i]);
      }
    }
  }

  lemma BillsStayAgreed(s: Sys, t: Sys, request: string, cost: real, c: Contract)
    requires ContractInv(s, c) && (t.billed == s.billed || t.billed == s.billed[request := cost])
    requires t.billed != s.billed ==> Agreed(c, request) && cost == TrueCost(c.terms[request], c.work[request])
    ensures forall r | r in t.billed :: BillAgreed(c, t, r)
  {
    hide Agreed, TrueCost;
    forall r | r in t.billed
      ensures BillAgreed(c, t, r)
    {
      if r in s.billed {
        assert BillAgreed(c, s, r);
      }
    }
  }

  lemma SentIsAgreed(s: Sys, p: nat, c: Contract)
    requires Inv(s) && ContractInv(s, c) && PcOf(s, p).Sending?
    ensures Agreed(c, PcOf(s, p).request)
  {
    SendingIsUnsent(s, p);
    hide Inv, Agreed;
    assert RowAgreed(c, s.rows[Locate(s.rows, PcOf(s, p).request).value]);
  }

  lemma ContractKeeps(s: Sys, a: Action, c: Contract)
    requires Inv(s) && ContractInv(s, c) && Fair(s, a, c)
    ensures ContractInv(Do(s, a), c)
  {
    StepKeeps(s, a);
    WhatIsNew(s, a);
    var t := Do(s, a);
    assert TableEvolves(s.rows, t.rows);
    hide Inv, Do, Kept, TableEvolves, ContractInv, Accounted, Recovered, Agreed, BoundOf, TrueCost;
    RowsStayAgreed(s, t, c);
    if a.Send? && PcOf(s, a.p).Sending? {
      SentIsAgreed(s, a.p, c);
      BillsStayAgreed(s, t, PcOf(s, a.p).request, a.cost, c);
    } else {
      BillsStayAgreed(s, t, "", 0.0, c);
    }
    ContractHolds(t, c);
  }

  lemma ContractHolds(s: Sys, c: Contract)
    requires forall i | 0 <= i < |s.rows| :: RowAgreed(c, s.rows[i])
    requires forall r | r in s.billed :: BillAgreed(c, s, r)
    ensures ContractInv(s, c)
  {
  }

  lemma {:induction false} FairRunIsHonest(s: Sys, actions: seq<Action>, c: Contract)
    requires Inv(s) && HonestInv(s) && ContractInv(s, c) && FairRun(s, actions, c)
    ensures HonestRun(s, actions)
    decreases |actions|
  {
    hide Inv, HonestInv, ContractInv, Do;
    if actions != [] {
      FairIsHonest(s, actions[0], c);
      ContractKeeps(s, actions[0], c);
      StepKeeps(s, actions[0]);
      KeptIsInv(s, Do(s, actions[0]));
      HonestStep(s, actions[0]);
      FairRunIsHonest(Do(s, actions[0]), actions[1..], c);
    }
  }

  lemma KeptIsInv(s: Sys, t: Sys)
    requires Kept(s, t)
    ensures Inv(t)
  {
  }

  /**
    From the prices to the cap, in every run: when every bound is an `operation_bound`, no operation needs more than
    four attempts within its token limits, and settlements rest on complete, truthful reports, the true spend stays
    within what the ledger holds, and with the historical floor within the largest cap of an accepted admission.
   */
  lemma BilledSpendCap(plans: Plans, actions: seq<Action>, c: Contract)
    requires FairRun(Init(plans), actions, c)
    ensures HonestRun(Init(plans), actions)
    ensures var s := Exec(Init(plans), actions);
            && s.spent <= Outstanding(Held(s.rows))
            && (s.rows != [] ==> HISTORICAL_FLOOR + s.spent <= s.highestCap <= MAX_AUTHORIZED_CAP)
  {
    FairRunIsHonest(Init(plans), actions, c);
    TrueSpendCap(plans, actions);
  }
}
