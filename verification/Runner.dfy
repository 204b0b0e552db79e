/**
  One recoverable campaign step (tools/chat-eval-runner.py) on the real ledger. Every remote answer is an input that may
  be missing; a missing answer, like a crash at that point, ends the step and leaves only the ledger and the receipts.
 */
module Runner {
  import opened Outcomes
  import opened Budget
  import opened Ledger
  import opened Campaign
  import opened CampaignSteps
  import opened CampaignRuns
  import Coverage

  /** What became of the paid request: never sent, sent without an answer, or answered with a handle. */
  datatype Answer = Unsent | Silent(made: string, bill: real) | Answered(made: string, bill: real)

  /** What the accounting reports for a collected operation. */
  datatype Charges = Charges(operation: Operation, reports: seq<Report>, auxiliary: real)

  /** What the status of an operation said, if it could be read. */
  datatype Status = Unread | Generating | Ended

  /** What the service said when asked for a lost handle, if it could be asked. */
  datatype Lookup = Unanswered | NoHandle | Handle(operation: string)

  datatype World = World(
    runtimeMatches: bool, snapshot: Snapshot, bound: real, now: real, later: real, request: string,
    conversation: Option<string>, answer: Answer, lookup: Lookup, status: Status,
    collected: Option<Saved>, accounting: bool, charges: Option<Charges>)

  datatype Outcome =
    | AllCollected
    | NeedsEvidenceReconciliation
    | NeedsAccounting
    | CostReconciled
    | NeedsReservationReconciliation
    | UnknownDispatch
    | ObservingNow
    | CollectedOne
    | Raised

  /** A transaction of process p that committed `tx` and moved on to `next`, or raised. */
  ghost predicate Moved(s: Sys, t: Sys, p: nat, tx: Option<Table>, next: Pc) {
    && t.rows == (if tx.Some? then tx.value else s.rows)
    && PcOf(t, p) == (if tx.Some? then next else Idle)
    && t.sends == s.sends
  }

  lemma AfterReserve(s: Sys, p: nat, request: string, w: World)
    requires PcOf(s, p).Preflighting?
    ensures var pc := PcOf(s, p);
            Moved(s, Do(s, Action.Reserve(p, request, w.snapshot, w.bound, w.now, None)), p,
                  ReserveTx(s.rows, request, pc.plan, pc.sample, w.snapshot, w.bound, w.now, None), Attaching(request))
  {
    hide ReserveTx;
  }

  lemma AfterAttach(s: Sys, p: nat, conversation: string)
    requires PcOf(s, p).Attaching?
    ensures var request := PcOf(s, p).request;
            Moved(s, Do(s, Attach(p, conversation)), p, AttachTx(s.rows, request, conversation), Launching(request))
  {
    hide AttachTx;
  }

  lemma AfterDispatch(s: Sys, p: nat)
    requires PcOf(s, p).Launching?
    ensures var request := PcOf(s, p).request;
            Moved(s, Do(s, Dispatch(p)), p, DispatchTx(s.rows, request), Sending(request))
  {
    hide DispatchTx;
  }

  lemma AfterSend(s: Sys, p: nat, operation: string, bill: real)
    requires PcOf(s, p).Sending?
    ensures var request := PcOf(s, p).request;
            var t := Do(s, Send(p, operation, bill));
            && t.rows == s.rows && t.sends == s.sends + [request]
            && PcOf(t, p) == if operation == "" then Idle else Handling(request, operation)
  {
  }

  lemma AfterObserved(s: Sys, p: nat)
    requires PcOf(s, p).Handling?
    ensures var pc := PcOf(s, p);
            Moved(s, Do(s, Observed(p)), p, ObserveTx(s.rows, pc.request, pc.operation), Idle)
  {
    hide ObserveTx;
  }

  lemma AfterReconcile(s: Sys, p: nat, cost: real)
    requires PcOf(s, p).Accounting?
    ensures var pc := PcOf(s, p);
            Moved(s, Do(s, Reconcile(p, cost)), p, ReconcileTx(s.rows, pc.request, pc.operation, cost), Idle)
  {
    hide ReconcileTx;
  }

  lemma AfterRecover(s: Sys, p: nat, answer: Option<string>)
    requires PcOf(s, p).Recovering?
    ensures var request := PcOf(s, p).request;
            var t := Do(s, Recover(p, answer));
            && t.rows == s.rows && t.sends == s.sends
            && PcOf(t, p) == if answer.None? || answer.value == "" then Idle else Handling(request, answer.value)
  {
  }

  lemma AfterCrash(s: Sys, p: nat)
    ensures Moved(s, Do(s, Crash(p)), p, None, Idle)
  {
  }

  lemma AfterScan(s: Sys, p: nat, plan: string, receipts: Disk)
    requires PcOf(s, p) == Idle && plan in s.plans
    ensures var decision := Decide(s.plans[plan], plan, s.rows, receipts);
            var t := Do(s, Scan(p, plan, receipts));
            t.rows == s.rows && t.sends == s.sends && PcOf(t, p) == After(decision, plan)
  {
    hide Decide, After;
  }

  /** Everything before the paid request went well: the runtime, the reservation, the conversation and the clock. */
  ghost predicate Dispatches(w: World, rows: Table, plan: string, sample: string) {
    && w.runtimeMatches
    && ReserveTx(rows, w.request, plan, sample, w.snapshot, w.bound, w.now, None).Some?
    && w.conversation.Some? && w.conversation.value != ""
    && 0.0 <= w.later - w.snapshot.observedAt <= 30.0
  }

  ghost predicate Answers(w: World) {
    w.answer.Answered? && w.answer.made != ""
  }

  /** Complete reports of this operation, for a cost its row can pay. */
  ghost predicate Payable(charges: Charges, rows: Table, request: string, operation: string) {
    && FullyReported(charges.operation.(id := operation), charges.reports) && charges.auxiliary >= 0.0
    && exists i | 0 <= i < |rows| ::
         MaySettle(rows[i], request, operation, ReportedCost(charges.reports) + charges.auxiliary)
  }

  lemma PayableExactly(charges: Charges, rows: Table, request: string, operation: string)
    requires Sound(rows)
    ensures var cost := Charged(charges.operation.(id := operation), charges.reports, charges.auxiliary);
            Payable(charges, rows, request, operation)
            <==> cost.Some? && ReconcileTx(rows, request, operation, cost.value).Some?
  {
    ReconcileExactly(rows, request, operation, ReportedCost(charges.reports) + charges.auxiliary);
    hide FullyReported, ReconcileTx, MaySettle, Sound;
  }

  /** The handle an observation goes by: the recorded one or, when it was lost, the one looked up. */
  function HandleOf(known: Option<string>, w: World): Option<string> {
    if known.Some? then known
    else if w.lookup.Handle? && w.lookup.operation != "" then Some(w.lookup.operation)
    else None
  }

  lemma ReservedAwaits(rows: Table, request: string, plan: string, sample: string, w: World)
    requires ReserveTx(rows, request, plan, sample, w.snapshot, w.bound, w.now, None).Some?
    ensures var after := ReserveTx(rows, request, plan, sample, w.snapshot, w.bound, w.now, None).value;
            exists i | 0 <= i < |after| :: AwaitsConversation(after[i], request)
  {
    ReserveExactly(rows, request, plan, sample, w.snapshot, w.bound, w.now, None);
    var after := ReserveTx(rows, request, plan, sample, w.snapshot, w.bound, w.now, None).value;
    assert AwaitsConversation(after[|rows|], request);
  }

  lemma AttachedIsReady(rows: Table, request: string, conversation: string)
    requires Sound(rows) && AttachTx(rows, request, conversation).Some?
    ensures var after := AttachTx(rows, request, conversation).value;
            exists i | 0 <= i < |after| :: ReadyToDispatch(after[i], request)
  {
    AttachExactly(rows, request, conversation);
    var after := AttachTx(rows, request, conversation).value;
    var i :| 0 <= i < |rows| && AwaitsConversation(rows[i], request) && OnlyRow(rows, after, i)
             && after[i] == rows[i].(conversation := Some(conversation));
    assert ReadyToDispatch(after[i], request);
  }

  lemma DispatchedMayObserve(rows: Table, request: string, operation: string)
    requires Sound(rows) && DispatchTx(rows, request).Some?
    ensures var after := DispatchTx(rows, request).value;
            exists i | 0 <= i < |after| :: MayObserve(after[i], request, operation)
  {
    DispatchExactly(rows, request);
    var after := DispatchTx(rows, request).value;
    var i :| 0 <= i < |rows| && ReadyToDispatch(rows[i], request) && OnlyRow(rows, after, i)
             && after[i] == rows[i].(state := Dispatching);
    assert RowOk(rows[i]) && MayObserve(after[i], request, operation);
  }

  /** A sample that goes on to be observed has a row that is underway, with the handle the decision names. */
  lemma {:induction false} ObservedIsUnderway(samples: seq<string>, plan: string, rows: Table, disk: Disk)
    requires Decide(samples, plan, rows, disk).Observe? && Sound(rows)
    ensures var d := Decide(samples, plan, rows, disk);
            forall operation: string | operation != "" && (d.operation.Some? ==> d.operation.value == operation) ::
              ObserveTx(rows, d.request, operation).Some?
    ensures var d := Decide(samples, plan, rows, disk); d.operation.Some? ==> d.operation.value != ""
    decreases |samples|
  {
    var sample := samples[0];
    if sample in disk {
      ObservedIsUnderway(samples[1..], plan, rows, disk);
    } else {
      var row := SampleRow(rows, plan, sample).value;
      var i :| 0 <= i < |rows| && rows[i] == row;
      assert RowOk(rows[i]);
      forall operation: string | operation != "" && (row.operation.Some? ==> row.operation.value == operation)
        ensures ObserveTx(rows, row.request, operation).Some?
      {
        ObserveExactly(rows, row.request, operation);
        assert MayObserve(rows[i], row.request, operation);
      }
    }
  }

  lemma NoActions(s: Sys)
    ensures Exec(s, []) == s
  {
  }

  class Process {
    const id: nat
    const plan: string
    const samples: seq<string>
    const ledger: Store
    var receipts: Disk
    /** The system this process belongs to; its table is the ledger. */
    ghost var system: Sys

    ghost predicate Valid()
      reads this, ledger
    {
      && system.rows == ledger.rows && Inv(system)
      && plan in system.plans && system.plans[plan] == samples
    }

    ghost predicate Ready()
      reads this, ledger
    {
      Valid() && PcOf(system, id) == Idle
    }

    constructor (id: nat, plan: string, samples: seq<string>, ledger: Store, ghost system: Sys)
      requires system.rows == ledger.rows && Inv(system) && PcOf(system, id) == Idle
      requires plan in system.plans && system.plans[plan] == samples
      ensures Ready() && this.system == system && this.ledger == ledger && this.id == id
      ensures this.plan == plan && this.samples == samples && receipts == map[]
    {
      this.id, this.plan, this.samples, this.ledger := id, plan, samples, ledger;
      this.receipts := map[];
      this.system := system;
    }

    /** Accounts for one action of this process whose effect on the table has just been committed. */
    ghost method Log(a: Action, trace: seq<Action>, start: Sys) returns (longer: seq<Action>)
      requires Inv(system) && system == Exec(start, trace)
      requires plan in system.plans && system.plans[plan] == samples
      requires Do(system, a).rows == ledger.rows
      modifies this`system
      ensures system == Do(old(system), a) && longer == trace + [a] && system == Exec(start, longer)
      ensures Valid()
    {
      StepKeeps(system, a);
      Coverage.ExecAppend(start, trace, [a]);
      Coverage.ExecFirst(system, a, []);
      assert [a] + [] == [a];
      PlansNeverChange(system, [a]);
      system := Do(system, a);
      longer := trace + [a];
    }

    /** The row a scan finds for a sample in its reading of the ledger. */
    method RowOf(sample: string) returns (row: Option<Row>)
      ensures row == SampleRow(ledger.rows, plan, sample)
    {
      var i := |ledger.rows|;
      assert ledger.rows[..i] == ledger.rows;
      while i > 0
        invariant 0 <= i <= |ledger.rows|
        invariant SampleRow(ledger.rows, plan, sample) == SampleRow(ledger.rows[..i], plan, sample)
      {
        i := i - 1;
        if ledger.rows[i].plan == plan && ledger.rows[i].sample == sample {
          return Some(ledger.rows[i]);
        }
        assert ledger.rows[..i + 1][..i] == ledger.rows[..i];
      }
      return None;
    }

    /** The loop of `step`: skips the samples that are done and says what the first other one needs. */
    method Next() returns (decision: Decision)
      ensures decision == Decide(samples, plan, ledger.rows, receipts)
    {
      for i := 0 to |samples|
        invariant Decide(samples, plan, ledger.rows, receipts) == Decide(samples[i..], plan, ledger.rows, receipts)
      {
        assert samples[i..][1..] == samples[i + 1..];
        var sample := samples[i];
        var row := RowOf(sample);
        if sample in receipts {
          var saved := receipts[sample];
          if !saved.identity || row.None? || !saved.resources || saved.operation != row.value.operation {
            return Stopped;
          }
          if !saved.verified {
            return NeedsEvidence(sample);
          }
          var held := row.value.reservation;
          if held.state == Retained {
            if row.value.operation.None?
               || !RetainedCost(held, row.value.operation.value,
                                Some(Shown(saved, row.value.operation.value))) {
              return Stopped;
            }
          } else if held.state != Settled {
            return Decision.Account(row.value.request, row.value.operation);
          }
        } else {
          if row.None? {
            return Preflight(sample);
          }
          if row.value.state == Reserved {
            return NeedsReservation(row.value.request);
          }
          return Observe(sample, row.value.request, row.value.operation);
        }
      }
      return Collected;
    }

    /** From `preflight` to the observed handle: one reservation, one conversation, at most one paid request. */
    method Begin(sample: string, w: World, ghost before: seq<Action>, ghost start: Sys)
      returns (outcome: Outcome, ghost trace: seq<Action>)
      requires Valid() && PcOf(system, id) == Preflighting(plan, sample) && system == Exec(start, before)
      modifies ledger, this`system
      ensures Ready() && system == Exec(start, trace)
      ensures outcome == if old(Dispatches(w, ledger.rows, plan, sample)) && Answers(w) then ObservingNow else Raised
      ensures system.sends == old(system.sends) +
              if old(Dispatches(w, ledger.rows, plan, sample)) && !w.answer.Unsent? then [w.request] else []
    {
      hide Inv, Do, Exec, PcOf, ReserveTx, AttachTx, DispatchTx, ObserveTx, ReconcileTx;
      trace := before;
      outcome := Raised;
      if !w.runtimeMatches {
        AfterCrash(system, id);
        trace := Log(Crash(id), trace, start);
        return;
      }
      InvParts(system);
      AfterReserve(system, id, w.request, w);
      if ReserveTx(ledger.rows, w.request, plan, sample, w.snapshot, w.bound, w.now, None).Some? {
        ReservedAwaits(ledger.rows, w.request, plan, sample, w);
      }
      var reserved := ledger.Reserve(w.request, plan, sample, w.snapshot, w.bound, w.now, None);
      trace := Log(Action.Reserve(id, w.request, w.snapshot, w.bound, w.now, None), trace, start);
      if !reserved {
        return;
      }
      if w.conversation.None? {
        AfterCrash(system, id);
        trace := Log(Crash(id), trace, start);
        return;
      }
      InvParts(system);
      AfterAttach(system, id, w.conversation.value);
      AttachExactly(ledger.rows, w.request, w.conversation.value);
      if AttachTx(ledger.rows, w.request, w.conversation.value).Some? {
        AttachedIsReady(ledger.rows, w.request, w.conversation.value);
      }
      var attached := ledger.AttachConversation(w.request, w.conversation.value);
      trace := Log(Attach(id, w.conversation.value), trace, start);
      if !attached {
        return;
      }
      if !(0.0 <= w.later - w.snapshot.observedAt <= 30.0) {
        AfterCrash(system, id);
        trace := Log(Crash(id), trace, start);
        return;
      }
      outcome, trace := Launch(w, trace, start);
    }

    /** `dispatch`: commit DISPATCHING, send, observe. */
    method Launch(w: World, ghost before: seq<Action>, ghost start: Sys)
      returns (outcome: Outcome, ghost trace: seq<Action>)
      requires Valid() && PcOf(system, id) == Launching(w.request) && system == Exec(start, before)
      requires exists i | 0 <= i < |ledger.rows| :: ReadyToDispatch(ledger.rows[i], w.request)
      modifies ledger, this`system
      ensures Ready() && system == Exec(start, trace)
      ensures outcome == if Answers(w) then ObservingNow else Raised
      ensures system.sends == old(system.sends) + if w.answer.Unsent? then [] else [w.request]
    {
      hide Inv, Do, Exec, PcOf, ReserveTx, AttachTx, DispatchTx, ObserveTx, ReconcileTx;
      trace := before;
      outcome := Raised;
      InvParts(system);
      AfterDispatch(system, id);
      DispatchExactly(ledger.rows, w.request);
      if !w.answer.Unsent? {
        DispatchedMayObserve(ledger.rows, w.request, w.answer.made);
      }
      var dispatched := ledger.BeginDispatch(w.request);
      trace := Log(Dispatch(id), trace, start);
      if !dispatched {
        return;
      }
      if w.answer.Unsent? {
        AfterCrash(system, id);
        trace := Log(Crash(id), trace, start);
        return;
      }
      AfterSend(system, id, w.answer.made, w.answer.bill);
      trace := Log(Send(id, w.answer.made, w.answer.bill), trace, start);
      if w.answer.made == "" {
        return;
      }
      if w.answer.Silent? {
        AfterCrash(system, id);
        trace := Log(Crash(id), trace, start);
        return;
      }
      InvParts(system);
      AfterObserved(system, id);
      ObserveExactly(ledger.rows, w.request, w.answer.made);
      var observed := ledger.ObserveHandle(w.request, w.answer.made);
      trace := Log(Observed(id), trace, start);
      if observed {
        outcome := ObservingNow;
      }
    }

    /** An operation already under way: look its handle up if it was lost, observe it, and collect it once it ended. */
    method Follow(sample: string, request: string, known: Option<string>, w: World,
                  ghost before: seq<Action>, ghost start: Sys)
      returns (outcome: Outcome, ghost trace: seq<Action>)
      requires Valid() && system == Exec(start, before) && sample !in receipts
      requires known.Some? ==> PcOf(system, id) == Handling(request, known.value) && known.value != ""
      requires known.None? ==> PcOf(system, id) == Recovering(request)
      requires forall operation: string | operation != "" && (known.Some? ==> known.value == operation) ::
                 ObserveTx(ledger.rows, request, operation).Some?
      modifies ledger, this
      ensures Ready() && system == Exec(start, trace) && system.sends == old(system).sends
      ensures outcome == CollectedOne ==> w.collected.Some? && receipts == old(receipts)[sample := w.collected.value]
      ensures outcome != CollectedOne ==> receipts == old(receipts)
      ensures HandleOf(known, w).None? ==> ledger.rows == old(ledger.rows)
      ensures HandleOf(known, w).Some? ==>
                Some(ledger.rows) == old(ObserveTx(ledger.rows, request, HandleOf(known, w).value))
      ensures known.None? && w.lookup.Unanswered? ==> outcome == Raised
      ensures HandleOf(known, w).None? && !w.lookup.Unanswered? ==> outcome == UnknownDispatch
      ensures HandleOf(known, w).Some? ==>
                outcome == match w.status
                           case Unread => Raised
                           case Generating => ObservingNow
                           case Ended => if w.collected.Some? then CollectedOne else Raised
    {
      hide Inv, Do, Exec, PcOf, ReserveTx, AttachTx, DispatchTx, ObserveTx, ReconcileTx;
      trace := before;
      var operation := known;
      if operation.None? {
        if w.lookup.Unanswered? {
          AfterCrash(system, id);
          trace := Log(Crash(id), trace, start);
          return Raised, trace;
        }
        operation := if w.lookup.Handle? then Some(w.lookup.operation) else None;
        AfterRecover(system, id, operation);
        trace := Log(Recover(id, operation), trace, start);
        if operation.None? || operation.value == "" {
          return UnknownDispatch, trace;
        }
      }
      AfterObserved(system, id);
      var observed := ledger.ObserveHandle(request, operation.value);
      trace := Log(Observed(id), trace, start);
      if w.status.Unread? {
        return Raised, trace;
      }
      if w.status.Generating? {
        return ObservingNow, trace;
      }
      if w.collected.None? {
        return Raised, trace;
      }
      receipts := receipts[sample := w.collected.value];
      return CollectedOne, trace;
    }

    /** A collected sample whose cost is still open: reconcile it when accounting can be read. */
    method Reckon(request: string, operation: Option<string>, w: World, ghost before: seq<Action>, ghost start: Sys)
      returns (outcome: Outcome, ghost trace: seq<Action>)
      requires Valid() && system == Exec(start, before)
      requires PcOf(system, id) == if operation.Some? then Accounting(request, operation.value) else Idle
      modifies ledger, this`system
      ensures Ready() && system == Exec(start, trace) && system.sends == old(system).sends
      ensures !w.accounting ==> outcome == NeedsAccounting
      ensures w.accounting ==>
                outcome == if && operation.Some? && w.charges.Some?
                              && old(Payable(w.charges.value, ledger.rows, request, operation.value))
                           then CostReconciled else Raised
      ensures outcome != CostReconciled ==> ledger.rows == old(ledger.rows)
      ensures outcome == CostReconciled ==>
                exists i | 0 <= i < |ledger.rows| ::
                  && OnlyRow(old(ledger.rows), ledger.rows, i) && old(ledger.rows)[i].request == request
                  && Settles(old(ledger.rows)[i], ledger.rows[i],
                             ReportedCost(w.charges.value.reports) + w.charges.value.auxiliary)
    {
      hide Inv, Do, Exec, PcOf, ReserveTx, AttachTx, DispatchTx, ObserveTx, ReconcileTx,
        Payable, Charged, Settles, OnlyRow, ReportedCost, Sound;
      trace := before;
      outcome := if w.accounting then Raised else NeedsAccounting;
      if !w.accounting || operation.None? || w.charges.None? {
        AfterCrash(system, id);
        trace := Log(Crash(id), trace, start);
        return;
      }
      InvParts(system);
      var terminal := w.charges.value.operation.(id := operation.value);
      PayableExactly(w.charges.value, ledger.rows, request, operation.value);
      ghost var cost := Charged(terminal, w.charges.value.reports, w.charges.value.auxiliary);
      var reconciled := ledger.ReconcileCost(request, terminal, w.charges.value.reports, w.charges.value.auxiliary);
      if cost.Some? {
        AfterReconcile(system, id, cost.value);
        trace := Log(Reconcile(id, cost.value), trace, start);
      } else {
        AfterCrash(system, id);
        trace := Log(Crash(id), trace, start);
      }
      if reconciled {
        outcome := CostReconciled;
      }
    }

    /**
      One call of `step`, cut short wherever an answer is missing. It is a run of the system; it sends at most one
      request and only from `preflight`; it never rewrites a receipt; and it reports the campaign collected only when
      every sample of the plan has a receipt and a settled or fully retained cost.
     */
    method Step(w: World) returns (outcome: Outcome, ghost trace: seq<Action>)
      requires Ready()
      modifies ledger, this
      ensures Ready() && system == Exec(old(system), trace)
      ensures var d := old(Decide(samples, plan, ledger.rows, receipts));
              && (d.Collected? ==> outcome == AllCollected)
              && (d.Stopped? ==> outcome == Raised)
              && (d.NeedsEvidence? ==> outcome == NeedsEvidenceReconciliation)
              && (d.NeedsReservation? ==> outcome == NeedsReservationReconciliation)
              && (d.Account? ==>
                    outcome == if !w.accounting then NeedsAccounting
                               else if && d.operation.Some? && w.charges.Some?
                                       && old(Payable(w.charges.value, ledger.rows, d.request, d.operation.value))
                               then CostReconciled else Raised)
              && (d.Preflight? ==>
                    outcome == if old(Dispatches(w, ledger.rows, plan, d.sample)) && Answers(w)
                               then ObservingNow else Raised)
              && (d.Observe? && HandleOf(d.operation, w).None? ==>
                    outcome == if w.lookup.Unanswered? then Raised else UnknownDispatch)
              && (d.Observe? && HandleOf(d.operation, w).Some? ==>
                    outcome == match w.status
                               case Unread => Raised
                               case Generating => ObservingNow
                               case Ended => if w.collected.Some? then CollectedOne else Raised)
      ensures var d := old(Decide(samples, plan, ledger.rows, receipts));
              && (!d.Preflight? && outcome != CostReconciled && !(d.Observe? && HandleOf(d.operation, w).Some?) ==>
                    ledger.rows == old(ledger.rows))
              && (d.Observe? && HandleOf(d.operation, w).Some? ==>
                    Some(ledger.rows) == old(ObserveTx(ledger.rows, d.request, HandleOf(d.operation, w).value)))
              && (outcome == CostReconciled && d.Account? && w.charges.Some? ==>
                    exists i | 0 <= i < |ledger.rows| ::
                      && OnlyRow(old(ledger.rows), ledger.rows, i) && old(ledger.rows)[i].request == d.request
                      && Settles(old(ledger.rows)[i], ledger.rows[i],
                                 ReportedCost(w.charges.value.reports) + w.charges.value.auxiliary))
      ensures var d := old(Decide(samples, plan, ledger.rows, receipts));
              && (outcome == CollectedOne ==>
                    && d.Observe? && d.sample !in old(receipts) && w.status.Ended? && w.collected.Some?
                    && receipts == old(receipts)[d.sample := w.collected.value])
              && (outcome != CollectedOne ==> receipts == old(receipts))
              && system.sends == old(system.sends) +
                 if d.Preflight? && old(Dispatches(w, ledger.rows, plan, d.sample)) && !w.answer.Unsent?
                 then [w.request] else []
      ensures outcome == AllCollected ==>
                forall k | 0 <= k < |samples| :: samples[k] in receipts && Closed(ledger.rows, plan, samples[k])
    {
      hide Inv, Do, Exec, PcOf, ReserveTx, AttachTx, DispatchTx, ObserveTx, ReconcileTx, Dispatches, Payable,
        Decide, Closed, OnlyRow, Settles, Answers, ReportedCost;
      ghost var start := system;
      var decision := Next();
      AfterScan(system, id, plan, receipts);
      NoActions(start);
      trace := Log(Scan(id, plan, receipts), [], start);
      match decision
      case Collected =>
        CollectedMeansClosed(samples, plan, ledger.rows, receipts);
        outcome := AllCollected;
      case Stopped =>
        outcome := Raised;
      case NeedsEvidence(_) =>
        outcome := NeedsEvidenceReconciliation;
      case NeedsReservation(_) =>
        outcome := NeedsReservationReconciliation;
      case Account(request, operation) =>
        outcome, trace := Reckon(request, operation, w, trace, start);
      case Preflight(sample) =>
        outcome, trace := Begin(sample, w, trace, start);
      case Observe(sample, request, operation) =>
        ObservedHasNoReceipt(samples, plan, ledger.rows, receipts);
        InvParts(system);
        ObservedIsUnderway(samples, plan, ledger.rows, receipts);
        outcome, trace := Follow(sample, request, operation, w, trace, start);
    }
  }

  lemma {:induction false} ObservedHasNoReceipt(samples: seq<string>, plan: string, rows: Table, disk: Disk)
    requires Decide(samples, plan, rows, disk).Observe?
    ensures Decide(samples, plan, rows, disk).sample !in disk
    decreases |samples|
  {
    if samples[0] in disk {
      ObservedHasNoReceipt(samples[1..], plan, rows, disk);
    }
  }

  lemma {:induction false} CollectedMeansClosed(samples: seq<string>, plan: string, rows: Table, disk: Disk)
    requires Decide(samples, plan, rows, disk).Collected?
    ensures forall k | 0 <= k < |samples| :: samples[k] in disk && Closed(rows, plan, samples[k])
    decreases |samples|
  {
    if samples != [] {
      var row := SampleRow(rows, plan, samples[0]).value;
      var i :| 0 <= i < |rows| && rows[i] == row;
      assert Closed(rows, plan, samples[0]);
      CollectedMeansClosed(samples[1..], plan, rows, disk);
      forall k | 0 <= k < |samples|
        ensures samples[k] in disk && Closed(rows, plan, samples[k])
      {
        if k > 0 {
          assert samples[k] == samples[1..][k - 1];
        }
      }
    }
  }
}
