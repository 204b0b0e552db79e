/** Runs of the campaign system with a service that keeps its word: what is truly spent. */
module HonestService {
  import opened Outcomes
  import opened Budget
  import opened Ledger
  import opened Campaign
  import opened CampaignSteps

  /** What the outside world owes: fresh operation ids, truthful answers, costs within bounds and complete reports. */
  ghost predicate Honest(s: Sys, a: Action) {
    match a
    case Send(p, operation, cost) =>
      (match PcOf(s, p)
       case Sending(request) =>
         && operation != "" && operation !in s.minted.Values && cost >= 0.0
         && forall i | 0 <= i < |s.rows| && s.rows[i].request == request :: cost <= s.rows[i].reservation.reserved
       case _ => true)
    case Recover(p, answer) =>
      (match PcOf(s, p)
       case Recovering(request) => answer.Some? ==> request in s.minted && s.minted[request] == answer.value
       case _ => true)
    case Reconcile(p, cost) =>
      (match PcOf(s, p)
       case Accounting(request, _) => Covers(s, request, cost)
       case _ => true)
    case Adjust(request, _, cost) => Covers(s, request, cost)
    case Swap(entry, cost) => Covers(s, entry.request, cost)
    case _ => true
  }

  ghost predicate Covers(s: Sys, request: string, cost: real) {
    request in s.billed ==> s.billed[request] <= cost
  }

  ghost predicate HonestRun(s: Sys, actions: seq<Action>)
    decreases |actions|
  {
    actions == [] || (Honest(s, actions[0]) && HonestRun(Do(s, actions[0]), actions[1..]))
  }

  function RowSpend(rows: Table, billed: map<string, real>): real {
    if rows == [] then 0.0
    else
      var request := rows[|rows| - 1].request;
      RowSpend(rows[..|rows| - 1], billed) + if request in billed then billed[request] else 0.0
  }

  ghost predicate OperationOk(s: Sys, row: Row) {
    row.operation.Some? ==> row.request in s.minted && s.minted[row.request] == row.operation.value
  }

  ghost predicate CostOk(s: Sys, row: Row) {
    row.request in s.billed ==> s.billed[row.request] <= row.reservation.reserved
  }

  ghost predicate Truthful(s: Sys, pc: Pc) {
    pc.Handling? ==> pc.request in s.minted && s.minted[pc.request] == pc.operation
  }

  ghost predicate Injective(minted: map<string, string>) {
    forall r, t | r in minted && t in minted && minted[r] == minted[t] :: r == t
  }

  ghost predicate HonestInv(s: Sys) {
    && (forall r :: r in s.minted <==> r in s.sends)
    && (forall r :: r in s.billed <==> r in s.sends)
    && Injective(s.minted)
    && (forall i | 0 <= i < |s.rows| :: OperationOk(s, s.rows[i]) && CostOk(s, s.rows[i]))
    && (forall p | p in s.pcs :: Truthful(s, s.pcs[p]))
    && s.spent == RowSpend(s.rows, s.billed)
  }

  lemma {:induction false} RowSpendByRequest(a: Table, b: Table, billed: map<string, real>)
    requires |a| == |b| && forall i | 0 <= i < |a| :: a[i].request == b[i].request
    ensures RowSpend(a, billed) == RowSpend(b, billed)
  {
    if a != [] {
      RowSpendByRequest(a[..|a| - 1], b[..|b| - 1], billed);
    }
  }

  lemma {:induction false} RowSpendNewBill(rows: Table, billed: map<string, real>, request: string, cost: real)
    requires request !in billed
    requires forall i, j | 0 <= i < j < |rows| :: rows[i].request != rows[j].request
    ensures RowSpend(rows, billed[request := cost])
            == RowSpend(rows, billed) + if Locate(rows, request).Some? then cost else 0.0
  {
    if rows != [] {
      RowSpendNewBill(rows[..|rows| - 1], billed, request, cost);
    }
  }

  lemma {:induction false} RowSpendWithinOutstanding(s: Sys, rows: Table)
    requires forall i | 0 <= i < |rows| :: CostOk(s, rows[i]) && RowOk(rows[i])
    ensures RowSpend(rows, s.billed) <= Outstanding(Held(rows))
  {
    if rows != [] {
      RowSpendWithinOutstanding(s, rows[..|rows| - 1]);
      assert Held(rows)[..|rows| - 1] == Held(rows[..|rows| - 1]);
    }
  }

  lemma HonestPc(s: Sys, p: nat, pc: Pc)
    requires HonestInv(s) && Truthful(s, pc)
    ensures HonestInv(Go(s, p, pc))
  {
    forall i | 0 <= i < |s.rows|
      ensures OperationOk(Go(s, p, pc), s.rows[i]) && CostOk(Go(s, p, pc), s.rows[i])
    {
      assert OperationOk(s, s.rows[i]) && CostOk(s, s.rows[i]);
    }
    forall q | q in s.pcs
      ensures Truthful(Go(s, p, pc), s.pcs[q])
    {
      assert Truthful(s, s.pcs[q]);
    }
  }

  lemma HonestRows(s: Sys, rows: Table, at: nat)
    requires HonestInv(s) && Updates(s.rows, rows, at)
    requires OperationOk(s, rows[at]) && CostOk(s, rows[at])
    ensures HonestInv(s.(rows := rows))
  {
    RowSpendByRequest(s.rows, rows, s.billed);
    var t := s.(rows := rows);
    forall i | 0 <= i < |rows|
      ensures OperationOk(t, rows[i]) && CostOk(t, rows[i])
    {
      if i != at {
        assert rows[i] == s.rows[i];
      }
    }
    forall q | q in s.pcs
      ensures Truthful(t, s.pcs[q])
    {
      assert Truthful(s, s.pcs[q]);
    }
  }

  lemma HonestCommit(s: Sys, p: nat, tx: Option<Table>, at: nat, next: Pc)
    requires HonestInv(s) && !next.Handling?
    requires tx.Some? ==> Updates(s.rows, tx.value, at) && OperationOk(s, tx.value[at]) && CostOk(s, tx.value[at])
    ensures HonestInv(Commit(s, p, tx, next))
  {
    match tx
    case None => HonestPc(s, p, Idle);
    case Some(rows) =>
      HonestRows(s, rows, at);
      HonestPc(s.(rows := rows), p, next);
  }

  lemma HonestGrow(s: Sys, row: Row, cap: real)
    requires HonestInv(s) && row.operation.None? && row.request !in s.sends
    ensures HonestInv(s.(rows := s.rows + [row], highestCap := cap))
  {
    var t := s.(rows := s.rows + [row], highestCap := cap);
    assert t.rows[..|s.rows|] == s.rows;
    forall i | 0 <= i < |t.rows|
      ensures OperationOk(t, t.rows[i]) && CostOk(t, t.rows[i])
    {
      if i < |s.rows| {
        assert OperationOk(s, s.rows[i]) && CostOk(s, s.rows[i]);
      }
    }
    forall q | q in s.pcs
      ensures Truthful(t, s.pcs[q])
    {
      assert Truthful(s, s.pcs[q]);
    }
  }

  lemma NewRequestUnsent(s: Sys, request: string)
    requires SendsOk(s) && request !in Requests(s.rows)
    ensures request !in s.sends
  {
    assert forall i | 0 <= i < |s.rows| :: s.rows[i].request in Requests(s.rows);
  }

  lemma HonestAppend(s: Sys, request: string, plan: string, sample: string, snapshot: Snapshot,
                     bound: real, now: real, authorized: Option<real>)
    requires Inv(s) && HonestInv(s)
    requires ReserveTx(s.rows, request, plan, sample, snapshot, bound, now, authorized).Some?
    ensures var rows := ReserveTx(s.rows, request, plan, sample, snapshot, bound, now, authorized).value;
            HonestInv(Capped(s.(rows := rows), authorized))
  {
    var rows := ReserveTx(s.rows, request, plan, sample, snapshot, bound, now, authorized).value;
    NewRequestUnsent(s, request);
    HonestGrow(s, rows[|s.rows|], Capped(s.(rows := rows), authorized).highestCap);
  }

  lemma SendingIsUnsent(s: Sys, p: nat)
    requires Inv(s) && PcOf(s, p).Sending?
    ensures PcOf(s, p).request !in s.sends && Locate(s.rows, PcOf(s, p).request).Some?
    ensures forall i, j | 0 <= i < j < |s.rows| :: s.rows[i].request != s.rows[j].request
  {
    assert PcOk(s, s.pcs[p]);
  }

  lemma FreshKeepsInjective(minted: map<string, string>, request: string, operation: string)
    requires Injective(minted) && operation !in minted.Values
    ensures Injective(minted[request := operation])
  {
    assert forall r | r in minted :: minted[r] in minted.Values;
  }

  lemma HonestBill(s: Sys, request: string, operation: string, cost: real)
    requires HonestInv(s) && request !in s.sends && operation !in s.minted.Values && Locate(s.rows, request).Some?
    requires forall i, j | 0 <= i < j < |s.rows| :: s.rows[i].request != s.rows[j].request
    requires forall i | 0 <= i < |s.rows| && s.rows[i].request == request :: cost <= s.rows[i].reservation.reserved
    ensures HonestInv(Sent(s, request, operation, cost))
  {
    var t := Sent(s, request, operation, cost);
    RowSpendNewBill(s.rows, s.billed, request, cost);
    FreshKeepsInjective(s.minted, request, operation);
    hide Injective;
    forall i | 0 <= i < |s.rows|
      ensures OperationOk(t, s.rows[i]) && CostOk(t, s.rows[i])
    {
      assert OperationOk(s, s.rows[i]) && CostOk(s, s.rows[i]);
    }
    forall q | q in t.pcs
      ensures Truthful(t, t.pcs[q])
    {
      assert Truthful(s, s.pcs[q]);
    }
  }

  lemma HonestSend(s: Sys, p: nat, operation: string, cost: real)
    requires Inv(s) && HonestInv(s) && Honest(s, Send(p, operation, cost))
    ensures HonestInv(Do(s, Send(p, operation, cost)))
  {
    var pc := PcOf(s, p);
    if pc.Sending? {
      SendingIsUnsent(s, p);
      hide Inv, HonestInv;
      HonestBill(s, pc.request, operation, cost);
      assert Truthful(Sent(s, pc.request, operation, cost), Handling(pc.request, operation));
      HonestPc(Sent(s, pc.request, operation, cost), p, Handling(pc.request, operation));
    }
  }

  lemma HonestStep(s: Sys, a: Action)
    requires Inv(s) && HonestInv(s) && Honest(s, a)
    ensures HonestInv(Do(s, a))
  {
    match a
    case Scan(p, plan, disk) =>
      if PcOf(s, p) == Idle && plan in s.plans {
        DecideTruthful(s, s.plans[plan], plan, disk);
        HonestPc(s, p, After(Decide(s.plans[plan], plan, s.rows, disk), plan));
      }
    case Reserve(p, request, snapshot, bound, now, authorized) => HonestReserve(s, a);
    case Send(p, operation, cost) => HonestSend(s, p, operation, cost);
    case Recover(p, answer) =>
      if PcOf(s, p).Recovering? {
        HonestPc(s, p, Do(s, a).pcs[p]);
      }
    case Crash(p) => HonestPc(s, p, Idle);
    case Seed(request, plan, sample, snapshot, bound, now, authorized) =>
      if plan !in s.plans && ReserveTx(s.rows, request, plan, sample, snapshot, bound, now, authorized).Some? {
        HonestAppend(s, request, plan, sample, snapshot, bound, now, authorized);
      }
    case Retain(request, receipt) => HonestRetain(s, request, receipt);
    case Adjust(request, operation, cost) => HonestAdjust(s, request, operation, cost);
    case Swap(entry, cost) => HonestSwap(s, entry, cost);
    case Attach(p, conversation) => HonestAttach(s, p, conversation);
    case Dispatch(p) => HonestDispatch(s, p);
    case Observed(p) => HonestObserved(s, p);
    case Reconcile(p, cost) => HonestReconcile(s, p, cost);
  }

  lemma {:induction false} DecideTruthful(s: Sys, samples: seq<string>, plan: string, disk: Disk)
    requires HonestInv(s)
    ensures Truthful(s, After(Decide(samples, plan, s.rows, disk), plan))
    decreases |samples|
  {
    if samples != [] {
      var row := SampleRow(s.rows, plan, samples[0]);
      if row.Some? {
        assert OperationOk(s, row.value);
      }
      DecideTruthful(s, samples[1..], plan, disk);
    }
  }

  lemma HonestReserve(s: Sys, a: Action)
    requires Inv(s) && HonestInv(s) && a.Reserve?
    ensures HonestInv(Do(s, a))
  {
    var pc := PcOf(s, a.p);
    if pc.Preflighting? {
      var tx := ReserveTx(s.rows, a.request, pc.plan, pc.sample, a.snapshot, a.bound, a.now, a.authorized);
      if tx.None? {
        HonestPc(s, a.p, Idle);
      } else {
        HonestAppend(s, a.request, pc.plan, pc.sample, a.snapshot, a.bound, a.now, a.authorized);
        var t := Capped(s.(rows := tx.value), a.authorized);
        HonestPc(t, a.p, Attaching(a.request));
        assert Do(s, a) == Go(t, a.p, Attaching(a.request));
      }
    }
  }

  lemma LocatedIsHonest(s: Sys, request: string)
    requires HonestInv(s) && Locate(s.rows, request).Some?
    ensures var row := s.rows[Locate(s.rows, request).value]; OperationOk(s, row) && CostOk(s, row)
  {
  }

  lemma HonestAttach(s: Sys, p: nat, conversation: string)
    requires Inv(s) && HonestInv(s)
    ensures HonestInv(Do(s, Attach(p, conversation)))
  {
    InvParts(s);
    hide Inv, HonestInv;
    var pc := PcOf(s, p);
    if pc.Attaching? {
      var tx, at := AttachTx(s.rows, pc.request, conversation), Locate(s.rows, pc.request);
      if tx.Some? {
        AttachUpdates(s.rows, pc.request, conversation);
        LocatedIsHonest(s, pc.request);
      }
      HonestCommit(s, p, tx, if tx.Some? then at.value else 0, Launching(pc.request));
    }
  }

  lemma HonestDispatch(s: Sys, p: nat)
    requires Inv(s) && HonestInv(s)
    ensures HonestInv(Do(s, Dispatch(p)))
  {
    InvParts(s);
    hide Inv, HonestInv;
    var pc := PcOf(s, p);
    if pc.Launching? {
      var tx, at := DispatchTx(s.rows, pc.request), Locate(s.rows, pc.request);
      if tx.Some? {
        DispatchUpdates(s.rows, pc.request);
        LocatedIsHonest(s, pc.request);
      }
      HonestCommit(s, p, tx, if tx.Some? then at.value else 0, Sending(pc.request));
    }
  }

  /** The row an honest answer leaves behind is honest. */
  lemma ObservedRowHonest(s: Sys, request: string, operation: string)
    requires HonestInv(s) && Truthful(s, Handling(request, operation)) && ObserveTx(s.rows, request, operation).Some?
    ensures var at := Locate(s.rows, request);
            && at.Some? && at.value < |ObserveTx(s.rows, request, operation).value|
            && var row := ObserveTx(s.rows, request, operation).value[at.value];
               OperationOk(s, row) && CostOk(s, row)
  {
    LocatedIsHonest(s, request);
    hide HonestInv;
  }

  lemma HonestObserved(s: Sys, p: nat)
    requires Inv(s) && HonestInv(s)
    ensures HonestInv(Do(s, Observed(p)))
  {
    InvParts(s);
    hide Inv;
    var pc := PcOf(s, p);
    if pc.Handling? {
      assert Truthful(s, s.pcs[p]);
      hide HonestInv, ObserveTx, Updates, OperationOk, CostOk, Truthful, Locate;
      var tx, at := ObserveTx(s.rows, pc.request, pc.operation), 0;
      if tx.Some? {
        ObserveUpdates(s.rows, pc.request, pc.operation);
        ObservedRowHonest(s, pc.request, pc.operation);
        at := Locate(s.rows, pc.request).value;
      }
      HonestCommit(s, p, tx, at, Idle);
    }
  }

  lemma ReconciledRowHonest(s: Sys, request: string, operation: string, cost: real)
    requires HonestInv(s) && ReconcileTx(s.rows, request, operation, cost).Some?
    requires request in s.billed ==> s.billed[request] <= cost
    ensures var at := Locate(s.rows, request);
            && at.Some? && at.value < |ReconcileTx(s.rows, request, operation, cost).value|
            && var row := ReconcileTx(s.rows, request, operation, cost).value[at.value];
               OperationOk(s, row) && CostOk(s, row)
  {
    LocatedIsHonest(s, request);
    hide HonestInv;
  }

  lemma HonestReconcile(s: Sys, p: nat, cost: real)
    requires Inv(s) && HonestInv(s) && Honest(s, Reconcile(p, cost))
    ensures HonestInv(Do(s, Reconcile(p, cost)))
  {
    hide Inv, HonestInv;
    var pc := PcOf(s, p);
    if pc.Accounting? {
      HonestReconcileCommit(s, p, pc.request, pc.operation, cost);
      hide ReconcileTx, Commit;
    }
  }

  lemma HonestReconcileCommit(s: Sys, p: nat, request: string, operation: string, cost: real)
    requires Inv(s) && HonestInv(s) && Covers(s, request, cost)
    ensures HonestInv(Commit(s, p, ReconcileTx(s.rows, request, operation, cost), Idle))
  {
    InvParts(s);
    hide Inv, HonestInv, ReconcileTx, Updates, OperationOk, CostOk, Locate, Sound, Commit;
    var tx, at := ReconcileTx(s.rows, request, operation, cost), 0;
    if tx.Some? {
      ReconcileUpdates(s.rows, request, operation, cost);
      ReconciledRowHonest(s, request, operation, cost);
      at := Locate(s.rows, request).value;
    }
    HonestCommit(s, p, tx, at, Idle);
  }

  lemma HonestRetain(s: Sys, request: string, receipt: Receipt)
    requires Inv(s) && HonestInv(s)
    ensures HonestInv(Do(s, Retain(request, receipt)))
  {
    var tx := RetainTx(s.rows, request, receipt);
    if IsHexDigest(receipt.digest) && tx.Some? {
      var at := Locate(s.rows, request).value;
      RetainUpdates(s.rows, request, receipt);
      assert OperationOk(s, s.rows[at]) && CostOk(s, s.rows[at]);
      HonestRows(s, tx.value, at);
    }
  }

  lemma HonestAdjust(s: Sys, request: string, operation: string, cost: real)
    requires Inv(s) && HonestInv(s) && Covers(s, request, cost)
    ensures HonestInv(Do(s, Adjust(request, operation, cost)))
  {
    var tx := ReconcileTx(s.rows, request, operation, cost);
    if tx.Some? {
      var at := Locate(s.rows, request).value;
      ReconcileUpdates(s.rows, request, operation, cost);
      assert OperationOk(s, s.rows[at]);
      HonestRows(s, tx.value, at);
    }
  }

  lemma HonestSwap(s: Sys, entry: Row, cost: real)
    requires Inv(s) && HonestInv(s) && Covers(s, entry.request, cost)
    ensures HonestInv(Do(s, Swap(entry, cost)))
  {
    var tx := SwapTx(s.rows, entry, cost);
    if tx.Some? {
      var at := Locate(s.rows, entry.request).value;
      SwapUpdates(s.rows, entry, cost);
      assert OperationOk(s, s.rows[at]);
      HonestRows(s, tx.value, at);
    }
  }

  lemma {:induction false} HonestRunKeeps(s: Sys, actions: seq<Action>)
    requires Inv(s) && HonestInv(s) && HonestRun(s, actions)
    ensures HonestInv(Exec(s, actions)) && Inv(Exec(s, actions))
    decreases |actions|
  {
    if actions != [] {
      StepKeeps(s, actions[0]);
      HonestStep(s, actions[0]);
      HonestRunKeeps(Do(s, actions[0]), actions[1..]);
    }
  }

  /** True spend, in every run where costs respect their reservations: it never exceeds what the ledger still holds. */
  lemma TrueSpendCap(plans: Plans, actions: seq<Action>)
    requires HonestRun(Init(plans), actions)
    ensures var s := Exec(Init(plans), actions);
            && s.spent <= Outstanding(Held(s.rows))
            && (s.rows != [] ==> HISTORICAL_FLOOR + s.spent <= s.highestCap <= MAX_AUTHORIZED_CAP)
  {
    HonestRunKeeps(Init(plans), actions);
    var s := Exec(Init(plans), actions);
    RowSpendWithinOutstanding(s, s.rows);
  }
}
