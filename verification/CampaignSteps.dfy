/** Every action of the campaign system keeps its invariant. */
module CampaignSteps {
  import opened Outcomes
  import opened Budget
  import opened Ledger
  import opened Campaign

  lemma InvParts(s: Sys)
    requires Inv(s)
    ensures PlansOk(s.plans) && Sound(s.rows) && PrefixOk(s.plans, s.rows)
  {
  }

  // ----- Plan prefixes -----

  lemma {:induction false} PlanSamplesMembers(rows: Table, plan: string, sample: string)
    ensures sample in PlanSamples(rows, plan) <==> HasSample(rows, plan, sample)
  {
    if rows != [] {
      var front := rows[..|rows| - 1];
      PlanSamplesMembers(front, plan, sample);
      if HasSample(rows, plan, sample) && !(rows[|rows| - 1].plan == plan && rows[|rows| - 1].sample == sample) {
        var i :| 0 <= i < |rows| && rows[i].plan == plan && rows[i].sample == sample;
        assert front[i].plan == plan && front[i].sample == sample;
      }
    }
  }

  lemma {:induction false} PlanSamplesByKey(a: Table, b: Table, plan: string)
    requires |a| == |b| && forall i | 0 <= i < |a| :: a[i].plan == b[i].plan && a[i].sample == b[i].sample
    ensures PlanSamples(a, plan) == PlanSamples(b, plan)
  {
    if a != [] {
      PlanSamplesByKey(a[..|a| - 1], b[..|b| - 1], plan);
    }
  }

  lemma ClosedPersists(a: Table, b: Table, plan: string, sample: string)
    requires TableEvolves(a, b) && Closed(a, plan, sample)
    ensures Closed(b, plan, sample)
  {
    var i :| 0 <= i < |a| && a[i].plan == plan && a[i].sample == sample && a[i].reservation.state != Untouched;
    assert Evolves(a[i], b[i]);
  }

  lemma UnderwayPersists(a: Table, b: Table, request: string)
    requires TableEvolves(a, b) && Underway(a, request)
    ensures Underway(b, request)
  {
    var i :| 0 <= i < |a| && a[i].request == request && a[i].state != Reserved;
    assert Evolves(a[i], b[i]);
  }

  lemma PcPersists(s: Sys, rows: Table, pc: Pc)
    requires TableEvolves(s.rows, rows) && PcOk(s, pc)
    ensures PcOk(s.(rows := rows), pc)
  {
    match pc
    case Preflighting(plan, sample) =>
      var n: nat :| ReadyAt(s.rows, s.plans[plan], plan, sample, n);
      forall k | 0 <= k < n
        ensures Closed(rows, plan, s.plans[plan][k])
      {
        ClosedPersists(s.rows, rows, plan, s.plans[plan][k]);
      }
      assert ReadyAt(rows, s.plans[plan], plan, sample, n);
    case Attaching(request) =>
      KnownPersists(s.rows, rows, s.plans, request);
    case Launching(request) =>
      KnownPersists(s.rows, rows, s.plans, request);
    case Sending(request) =>
      UnderwayPersists(s.rows, rows, request);
    case _ =>
  }

  lemma KnownPersists(a: Table, b: Table, plans: map<string, seq<string>>, request: string)
    requires TableEvolves(a, b) && Known(a, plans, request)
    ensures Known(b, plans, request)
  {
    var i :| 0 <= i < |a| && a[i].request == request && a[i].plan in plans;
    assert Evolves(a[i], b[i]);
  }

  lemma RowsPersist(s: Sys, rows: Table)
    requires TableEvolves(s.rows, rows) && SendsOk(s) && PcsOk(s)
    ensures SendsOk(s.(rows := rows)) && PcsOk(s.(rows := rows))
  {
    forall p | p in s.pcs
      ensures PcOk(s.(rows := rows), s.pcs[p])
    {
      PcPersists(s, rows, s.pcs[p]);
    }
    forall r | r in s.sends
      ensures Underway(rows, r)
    {
      UnderwayPersists(s.rows, rows, r);
    }
  }

  // ----- Every action keeps the invariant -----

  /** No row skips a state in one action. */
  ghost predicate Stepwise(a: Table, b: Table) {
    |a| <= |b| && forall i | 0 <= i < |a| :: Rank(b[i].state) <= Rank(a[i].state) + 1
  }

  ghost predicate Kept(s: Sys, t: Sys) {
    Inv(t) && TableEvolves(s.rows, t.rows) && Stepwise(s.rows, t.rows)
  }

  lemma PcChange(s: Sys, p: nat, pc: Pc)
    requires Inv(s) && PcOk(s, pc)
    requires pc.Sending? ==> forall q | q in s.pcs :: s.pcs[q] != pc
    ensures Inv(Go(s, p, pc))
  {
    var t := Go(s, p, pc);
    forall q | q in t.pcs
      ensures PcOk(t, t.pcs[q])
    {
      assert PcOk(s, t.pcs[q]);
    }
  }

  lemma RowChange(s: Sys, rows: Table, at: nat)
    requires Inv(s) && Updates(s.rows, rows, at)
    requires rows[at].state != Reserved ==> rows[at].plan in s.plans
    ensures Kept(s, s.(rows := rows))
  {
    UpdateKeeps(s.rows, rows, at);
    RowsPersist(s, rows);
    forall i | 0 <= i < |rows|
      ensures Evolves(s.rows[i], rows[i])
    {
    }
    forall plan | plan in s.plans
      ensures PlanSamples(rows, plan) <= s.plans[plan]
    {
      PlanSamplesByKey(s.rows, rows, plan);
    }
  }

  /** What an admitted sample needs so that its plan stays a settled prefix. */
  ghost predicate Extends(plans: map<string, seq<string>>, rows: Table, plan: string, sample: string) {
    plan in plans ==>
      && PlanSamples(rows, plan) + [sample] <= plans[plan]
      && forall i | 0 <= i < |rows| && rows[i].plan == plan :: rows[i].reservation.state != Untouched
  }

  lemma ReadyExtends(plans: map<string, seq<string>>, rows: Table, plan: string, sample: string, n: nat)
    requires PlansOk(plans) && Sound(rows) && PrefixOk(plans, rows)
    requires plan in plans && ReadyAt(rows, plans[plan], plan, sample, n) && !HasSample(rows, plan, sample)
    ensures PlanSamples(rows, plan) == plans[plan][..n] && Extends(plans, rows, plan, sample)
  {
    var samples, present := plans[plan], PlanSamples(rows, plan);
    if n < |present| {
      assert present[n] == samples[n];
      PlanSamplesMembers(rows, plan, sample);
      assert false;
    }
    if |present| < n {
      var next := samples[|present|];
      assert Closed(rows, plan, next) && HasSample(rows, plan, next);
      PlanSamplesMembers(rows, plan, next);
      assert false;
    }
    assert present + [sample] == samples[..n + 1];
    forall i | 0 <= i < |rows| && rows[i].plan == plan
      ensures rows[i].reservation.state != Untouched
    {
      PlanSamplesMembers(rows, plan, rows[i].sample);
      var k :| 0 <= k < n && samples[k] == rows[i].sample;
      assert Closed(rows, plan, samples[k]);
      var j :| 0 <= j < |rows| && rows[j].plan == plan && rows[j].sample == samples[k]
               && rows[j].reservation.state != Untouched;
      assert i == j;
    }
  }

  lemma AppendedPrefix(plans: map<string, seq<string>>, rows: Table, after: Table, plan: string, sample: string)
    requires PrefixOk(plans, rows) && Extends(plans, rows, plan, sample)
    requires |after| == |rows| + 1 && after[..|rows|] == rows
    requires after[|rows|].plan == plan && after[|rows|].sample == sample && after[|rows|].state == Reserved
    ensures PrefixOk(plans, after)
  {
    assert forall i | 0 <= i < |rows| :: after[i] == rows[i];
    forall p | p in plans
      ensures PlanSamples(after, p) <= plans[p]
    {
      assert PlanSamples(rows, p) <= plans[p];
      assert PlanSamples(rows, p) + [] == PlanSamples(rows, p);
    }
  }

  lemma Appended(s: Sys, request: string, plan: string, sample: string, snapshot: Snapshot,
                 bound: real, now: real, authorized: Option<real>)
    requires Inv(s) && Extends(s.plans, s.rows, plan, sample)
    requires ReserveTx(s.rows, request, plan, sample, snapshot, bound, now, authorized).Some?
    ensures var rows := ReserveTx(s.rows, request, plan, sample, snapshot, bound, now, authorized).value;
            && Kept(s, Capped(s.(rows := rows), authorized))
            && (plan in s.plans ==> Known(rows, s.plans, request))
  {
    ReserveKeeps(s.rows, request, plan, sample, snapshot, bound, now, authorized);
    var rows := ReserveTx(s.rows, request, plan, sample, snapshot, bound, now, authorized).value;
    assert rows[|s.rows|].request == request && rows[|s.rows|].plan == plan;
    assert forall i | 0 <= i < |s.rows| :: rows[i] == s.rows[i];
    RowsPersist(s, rows);
    AppendedPrefix(s.plans, s.rows, rows, plan, sample);
    var t := Capped(s.(rows := rows), authorized);
    hide Sound, PrefixOk, PlansOk, TableEvolves, ReserveTx, Held, PcOk, Underway, Distinct, Extends;
    OthersPersist(s.(rows := rows), t);
  }

  /** The highest cap plays no part in what sends and processes may do. */
  lemma OthersPersist(s: Sys, t: Sys)
    requires t == s.(highestCap := t.highestCap) && SendsOk(s) && PcsOk(s)
    ensures SendsOk(t) && PcsOk(t)
  {
    hide Underway, Distinct;
    forall p | p in t.pcs
      ensures PcOk(t, t.pcs[p])
    {
      assert PcOk(s, t.pcs[p]);
    }
  }

  lemma {:induction false} SampleRowsSettled(samples: seq<string>, plan: string, rows: Table, disk: Disk,
                                             done: seq<string>)
    requires forall k | 0 <= k < |done| :: Closed(rows, plan, done[k])
    requires Decide(samples, plan, rows, disk).Preflight?
    ensures exists n: nat :: ReadyAt(rows, done + samples, plan, Decide(samples, plan, rows, disk).sample, n)
                             && !HasSample(rows, plan, Decide(samples, plan, rows, disk).sample)
    decreases |samples|
  {
    var sample := samples[0];
    if sample in disk {
      var row := SampleRow(rows, plan, sample).value;
      var i :| 0 <= i < |rows| && rows[i] == row;
      assert Closed(rows, plan, sample);
      SampleRowsSettled(samples[1..], plan, rows, disk, done + [sample]);
      assert done + [sample] + samples[1..] == done + samples;
    } else {
      assert ReadyAt(rows, done + samples, plan, sample, |done|);
    }
  }

  lemma PcMove(s: Sys, p: nat, pc: Pc)
    requires Inv(s) && PcOk(s, pc)
    requires pc.Sending? ==> forall q | q in s.pcs :: s.pcs[q] != pc
    ensures Kept(s, Go(s, p, pc))
  {
    PcChange(s, p, pc);
    hide Inv;
  }

  lemma Unchanged(s: Sys)
    requires Inv(s)
    ensures Kept(s, s)
  {
    hide Inv;
  }

  lemma ScanKeeps(s: Sys, p: nat, plan: string, disk: Disk)
    requires Inv(s)
    ensures Kept(s, Do(s, Scan(p, plan, disk)))
  {
    hide Inv, Kept, Decide, ReadyAt;
    if PcOf(s, p) == Idle && plan in s.plans {
      var decision := Decide(s.plans[plan], plan, s.rows, disk);
      if decision.Preflight? {
        SampleRowsSettled(s.plans[plan], plan, s.rows, disk, []);
        assert [] + s.plans[plan] == s.plans[plan];
      }
      PcMove(s, p, After(decision, plan));
    } else {
      Unchanged(s);
    }
  }

  lemma ReserveActionKeeps(s: Sys, a: Action)
    requires Inv(s) && a.Reserve?
    ensures Kept(s, Do(s, a))
  {
    var pc := PcOf(s, a.p);
    if pc.Preflighting? {
      var tx := ReserveTx(s.rows, a.request, pc.plan, pc.sample, a.snapshot, a.bound, a.now, a.authorized);
      if tx.None? {
        PcChange(s, a.p, Idle);
      } else {
        var n: nat :| ReadyAt(s.rows, s.plans[pc.plan], pc.plan, pc.sample, n);
        ReserveKeeps(s.rows, a.request, pc.plan, pc.sample, a.snapshot, a.bound, a.now, a.authorized);
        ReadyExtends(s.plans, s.rows, pc.plan, pc.sample, n);
        Appended(s, a.request, pc.plan, pc.sample, a.snapshot, a.bound, a.now, a.authorized);
        var t := Capped(s.(rows := tx.value), a.authorized);
        PcChange(t, a.p, Attaching(a.request));
        assert Do(s, a) == Go(t, a.p, Attaching(a.request));
      }
    }
  }

  lemma LocatedIsKnown(rows: Table, plans: map<string, seq<string>>, request: string)
    requires Sound(rows) && Known(rows, plans, request)
    ensures Locate(rows, request).Some? && rows[Locate(rows, request).value].plan in plans
  {
    var i :| 0 <= i < |rows| && rows[i].request == request && rows[i].plan in plans;
    var at := Locate(rows, request).value;
    assert at == i;
  }

  /** A committed update of one row, made by a process that then moves on. */
  lemma CommitKeeps(s: Sys, p: nat, tx: Option<Table>, at: nat, next: Pc)
    requires Inv(s)
    requires tx.Some? ==>
               && Updates(s.rows, tx.value, at)
               && (tx.value[at].state != Reserved ==> tx.value[at].plan in s.plans)
               && PcOk(s.(rows := tx.value), next)
               && (next.Sending? ==> forall q | q in s.pcs :: s.pcs[q] != next)
    ensures Kept(s, Commit(s, p, tx, next))
  {
    match tx
    case None => PcChange(s, p, Idle);
    case Some(rows) =>
      RowChange(s, rows, at);
      PcChange(s.(rows := rows), p, next);
  }

  lemma AttachKeeps(s: Sys, p: nat, conversation: string)
    requires Inv(s)
    ensures Kept(s, Do(s, Attach(p, conversation)))
  {
    var pc := PcOf(s, p);
    if pc.Attaching? {
      var tx := AttachTx(s.rows, pc.request, conversation);
      var at := 0;
      if tx.Some? {
        AttachUpdates(s.rows, pc.request, conversation);
        at := Locate(s.rows, pc.request).value;
        UpdateKeeps(s.rows, tx.value, at);
        KnownPersists(s.rows, tx.value, s.plans, pc.request);
      }
      CommitKeeps(s, p, tx, at, Launching(pc.request));
    }
  }

  lemma NotUnderway(rows: Table, request: string)
    requires Sound(rows) && Locate(rows, request).Some? && rows[Locate(rows, request).value].state == Reserved
    ensures !Underway(rows, request)
  {
    var at := Locate(rows, request).value;
    assert rows[at].request == request;
    forall i | 0 <= i < |rows| && rows[i].request == request
      ensures i == at
    {
    }
  }

  /** While a row is still RESERVED nobody is about to send it and it has not been sent. */
  lemma NobodySends(s: Sys, request: string)
    requires Inv(s) && Locate(s.rows, request).Some? && s.rows[Locate(s.rows, request).value].state == Reserved
    ensures request !in s.sends && forall q | q in s.pcs :: s.pcs[q] != Sending(request)
  {
    NotUnderway(s.rows, request);
    assert SendsOk(s) && PcsOk(s);
    hide Underway, Inv, Sound, PrefixOk, MoneyOk, Distinct;
    forall q | q in s.pcs
      ensures s.pcs[q] != Sending(request)
    {
      assert PcOk(s, s.pcs[q]);
    }
  }

  lemma DispatchKeeps(s: Sys, p: nat)
    requires Inv(s)
    ensures Kept(s, Do(s, Dispatch(p)))
  {
    var pc := PcOf(s, p);
    if pc.Launching? {
      var tx := DispatchTx(s.rows, pc.request);
      var at := 0;
      if tx.Some? {
        at := Locate(s.rows, pc.request).value;
        LocatedIsKnown(s.rows, s.plans, pc.request);
        NobodySends(s, pc.request);
        DispatchUpdates(s.rows, pc.request);
        assert tx.value[at].request == pc.request && Underway(tx.value, pc.request);
      }
      CommitKeeps(s, p, tx, at, Sending(pc.request));
    }
  }

  /** The system once p has sent its request. */
  function AfterSending(s: Sys, p: nat, operation: string, cost: real): Sys
    requires PcOf(s, p).Sending?
  {
    var request := PcOf(s, p).request;
    Go(Sent(s, request, operation, cost), p, if operation == "" then Idle else Handling(request, operation))
  }

  lemma SentPcs(s: Sys, p: nat, operation: string, cost: real)
    requires PcsOk(s) && SendsOk(s) && PcOf(s, p).Sending?
    ensures PcsOk(AfterSending(s, p, operation, cost)) && SendsOk(AfterSending(s, p, operation, cost))
  {
    var t := AfterSending(s, p, operation, cost);
    assert PcOk(s, s.pcs[p]);
    hide Underway, Known, ReadyAt;
    forall q | q in t.pcs
      ensures PcOk(t, t.pcs[q])
    {
      if q != p {
        assert PcOk(s, s.pcs[q]);
      }
    }
  }

  lemma SendKeeps(s: Sys, p: nat, operation: string, cost: real)
    requires Inv(s)
    ensures Kept(s, Do(s, Send(p, operation, cost)))
  {
    Unchanged(s);
    if PcOf(s, p).Sending? {
      SentPcs(s, p, operation, cost);
      hide PcsOk, SendsOk, Sound, PrefixOk, PlansOk, TableEvolves, Stepwise, Held;
      assert Do(s, Send(p, operation, cost)) == AfterSending(s, p, operation, cost);
    }
  }

  lemma RecoverKeeps(s: Sys, p: nat, answer: Option<string>)
    requires Inv(s)
    ensures Kept(s, Do(s, Recover(p, answer)))
  {
    hide Inv, Kept;
    if PcOf(s, p).Recovering? {
      PcMove(s, p, Do(s, Recover(p, answer)).pcs[p]);
    } else {
      Unchanged(s);
    }
  }

  /** A row underway is one of its plan's. */
  lemma UnderwayPlanned(s: Sys, i: nat)
    requires Inv(s) && i < |s.rows| && s.rows[i].state != Reserved
    ensures s.rows[i].plan in s.plans
  {
    InvParts(s);
    hide Inv, Sound, PlansOk;
  }

  lemma ObserveTarget(rows: Table, request: string, operation: string)
    requires ObserveTx(rows, request, operation).Some?
    ensures var at := Locate(rows, request);
            && at.Some? && at.value < |rows| == |ObserveTx(rows, request, operation).value|
            && rows[at.value].state != Reserved
            && ObserveTx(rows, request, operation).value[at.value].plan == rows[at.value].plan
  {
  }

  lemma ReconcileTarget(rows: Table, request: string, operation: string, cost: real)
    requires Sound(rows) && ReconcileTx(rows, request, operation, cost).Some?
    ensures var at := Locate(rows, request);
            && at.Some? && at.value < |rows| == |ReconcileTx(rows, request, operation, cost).value|
            && rows[at.value].state != Reserved
            && ReconcileTx(rows, request, operation, cost).value[at.value].plan == rows[at.value].plan
  {
    hide Keyed;
  }

  lemma LastCommitKeeps(s: Sys, p: nat, tx: Option<Table>, at: nat)
    requires Inv(s)
    requires tx.Some? ==> Updates(s.rows, tx.value, at) && tx.value[at].plan in s.plans
    ensures Kept(s, Commit(s, p, tx, Idle))
  {
    hide Inv, Kept, Updates;
    CommitKeeps(s, p, tx, at, Idle);
  }

  lemma ObservedKeeps(s: Sys, p: nat)
    requires Inv(s)
    ensures Kept(s, Do(s, Observed(p)))
  {
    InvParts(s);
    hide Inv, Kept, ObserveTx, Updates, Locate, Sound, Commit, PrefixOk, PlansOk;
    var pc := PcOf(s, p);
    if pc.Handling? {
      var tx, at := ObserveTx(s.rows, pc.request, pc.operation), 0;
      if tx.Some? {
        ObserveUpdates(s.rows, pc.request, pc.operation);
        ObserveTarget(s.rows, pc.request, pc.operation);
        at := Locate(s.rows, pc.request).value;
        UnderwayPlanned(s, at);
      }
      LastCommitKeeps(s, p, tx, at);
    } else {
      Unchanged(s);
    }
  }

  lemma ReconcileKeeps(s: Sys, p: nat, cost: real)
    requires Inv(s)
    ensures Kept(s, Do(s, Reconcile(p, cost)))
  {
    hide Inv, Kept;
    var pc := PcOf(s, p);
    if pc.Accounting? {
      ReconcileCommitKeeps(s, p, pc.request, pc.operation, cost);
      hide ReconcileTx, Commit;
    } else {
      Unchanged(s);
    }
  }

  lemma ReconcileCommitKeeps(s: Sys, p: nat, request: string, operation: string, cost: real)
    requires Inv(s)
    ensures Kept(s, Commit(s, p, ReconcileTx(s.rows, request, operation, cost), Idle))
  {
    InvParts(s);
    hide Inv, Kept, ReconcileTx, Updates, Locate, Sound, Commit, PrefixOk, PlansOk;
    var tx, at := ReconcileTx(s.rows, request, operation, cost), 0;
    if tx.Some? {
      ReconcileUpdates(s.rows, request, operation, cost);
      ReconcileTarget(s.rows, request, operation, cost);
      at := Locate(s.rows, request).value;
      UnderwayPlanned(s, at);
    }
    LastCommitKeeps(s, p, tx, at);
  }

  lemma SeedKeeps(s: Sys, a: Action)
    requires Inv(s) && a.Seed?
    ensures Kept(s, Do(s, a))
  {
    if a.plan !in s.plans
       && ReserveTx(s.rows, a.request, a.plan, a.sample, a.snapshot, a.bound, a.now, a.authorized).Some? {
      Appended(s, a.request, a.plan, a.sample, a.snapshot, a.bound, a.now, a.authorized);
    }
  }

  lemma SettlementKeeps(s: Sys, tx: Option<Table>, at: nat)
    requires Inv(s)
    requires tx.Some? ==> Updates(s.rows, tx.value, at) && tx.value[at].plan in s.plans
    ensures Kept(s, Settlement(s, tx))
  {
    if tx.Some? {
      RowChange(s, tx.value, at);
    }
  }

  lemma RetainKeeps(s: Sys, request: string, receipt: Receipt)
    requires Inv(s)
    ensures Kept(s, Do(s, Retain(request, receipt)))
  {
    var tx := RetainTx(s.rows, request, receipt);
    if IsHexDigest(receipt.digest) && tx.Some? {
      RetainUpdates(s.rows, request, receipt);
      SettlementKeeps(s, tx, Locate(s.rows, request).value);
    }
  }

  lemma AdjustKeeps(s: Sys, request: string, operation: string, cost: real)
    requires Inv(s)
    ensures Kept(s, Do(s, Adjust(request, operation, cost)))
  {
    var tx := ReconcileTx(s.rows, request, operation, cost);
    if tx.Some? {
      ReconcileUpdates(s.rows, request, operation, cost);
      SettlementKeeps(s, tx, Locate(s.rows, request).value);
    }
  }

  lemma SwapKeeps(s: Sys, entry: Row, cost: real)
    requires Inv(s)
    ensures Kept(s, Do(s, Swap(entry, cost)))
  {
    var tx := SwapTx(s.rows, entry, cost);
    if tx.Some? {
      SwapUpdates(s.rows, entry, cost);
      SettlementKeeps(s, tx, Locate(s.rows, entry.request).value);
    }
  }

  lemma StepKeeps(s: Sys, a: Action)
    requires Inv(s)
    ensures Kept(s, Do(s, a))
  {
    match a
    case Scan(p, plan, disk) => ScanKeeps(s, p, plan, disk);
    case Reserve(_, _, _, _, _, _) => ReserveActionKeeps(s, a);
    case Attach(p, conversation) => AttachKeeps(s, p, conversation);
    case Dispatch(p) => DispatchKeeps(s, p);
    case Send(p, operation, cost) => SendKeeps(s, p, operation, cost);
    case Recover(p, answer) => RecoverKeeps(s, p, answer);
    case Observed(p) => ObservedKeeps(s, p);
    case Reconcile(p, cost) => ReconcileKeeps(s, p, cost);
    case Crash(p) => PcChange(s, p, Idle);
    case Seed(_, _, _, _, _, _, _) => SeedKeeps(s, a);
    case Retain(request, receipt) => RetainKeeps(s, request, receipt);
    case Adjust(request, operation, cost) => AdjustKeeps(s, request, operation, cost);
    case Swap(entry, cost) => SwapKeeps(s, entry, cost);
  }

  lemma {:induction false} RunKeeps(s: Sys, actions: seq<Action>)
    requires Inv(s)
    ensures Inv(Exec(s, actions)) && TableEvolves(s.rows, Exec(s, actions).rows)
    decreases |actions|
  {
    if actions != [] {
      StepKeeps(s, actions[0]);
      var next := Do(s, actions[0]);
      RunKeeps(next, actions[1..]);
      EvolvesTransitively(s.rows, next.rows, Exec(s, actions).rows);
    }
  }
}
