/** The local campaign budget: reservations, receipts and the overrun that ends it (tools/evaluation_budget.py). */
module Overrun {
  import opened Outcomes

  /** What `amount` accepts: a finite number from zero up. */
  type Amount = x: real | x >= 0.0 witness 0.0

  datatype OpState = Reserved | Unknown | Settled
  datatype Kind = Chat | Index | Auxiliary | OtherKind
  datatype Operation = Operation(id: string, kind: Kind, state: OpState, reserved: Amount, cost: Option<Amount>)
  datatype Alert = Alert(before: string, committed: real)
  datatype Budget = Budget(limit: real, alertAt: real, alerts: seq<Alert>, ops: seq<Operation>)

  /** A receipt as it is presented; a cost that is no amount is no cost. */
  datatype Receipt = Receipt(
    operation: string, allAccounted: bool, finished: bool, reference: string, cost: Option<Amount>)

  const CHAT_FLOOR := 6.50

  // ----- Amounts -----

  function Held(op: Operation): real {
    if op.state == Settled && op.cost.Some? then op.cost.value else op.reserved
  }

  function Committed(ops: seq<Operation>): real {
    if ops == [] then 0.0 else Committed(ops[..|ops| - 1]) + Held(ops[|ops| - 1])
  }

  predicate Open(op: Operation) {
    op.state != Settled
  }

  predicate AnyOpen(ops: seq<Operation>) {
    exists i | 0 <= i < |ops| :: Open(ops[i])
  }

  function Find(ops: seq<Operation>, id: string): (r: Option<nat>)
    ensures r.Some? ==> r.value < |ops| && ops[r.value].id == id
    ensures r.None? ==> forall i | 0 <= i < |ops| :: ops[i].id != id
  {
    if ops == [] then None
    else if ops[|ops| - 1].id == id then Some(|ops| - 1)
    else Find(ops[..|ops| - 1], id)
  }

  // ----- The three operations on the file's contents -----

  function Opened(id: string, limit: Option<Amount>, alertAt: Option<Amount>, authorization: string): Option<Budget> {
    if limit.Some? && alertAt.Some? && id != "" && authorization != "" && 0.0 < alertAt.value < limit.value
    then Some(Budget(limit.value, alertAt.value, [], [])) else None
  }

  predicate Acceptable(amount: Option<Amount>, kind: Kind) {
    amount.Some? && amount.value > 0.0 && kind != OtherKind && (kind == Chat ==> amount.value >= CHAT_FLOOR)
  }

  function Reserving(b: Budget, id: string, amount: Option<Amount>, kind: Kind): Option<Budget> {
    if !Acceptable(amount, kind) || Find(b.ops, id).Some? || AnyOpen(b.ops) then None
    else
      var total := Committed(b.ops) + amount.value;
      if total > b.limit then None
      else
        Some(b.(alerts := if total >= b.alertAt && b.alerts == [] then [Alert(id, total)] else b.alerts,
                ops := b.ops + [Operation(id, kind, Reserved, amount.value, None)]))
  }

  predicate Authoritative(r: Receipt, id: string) {
    r.operation == id && r.allAccounted && r.finished && r.reference != "" && r.cost.Some?
  }

  /** What is written; a missing or settled operation, or a receipt that is not authoritative, writes nothing. */
  function Finishing(b: Budget, id: string, receipt: Option<Receipt>): Option<Budget> {
    match Find(b.ops, id)
    case None => None
    case Some(at) =>
      var op := b.ops[at];
      if op.state == Settled then None
      else
        match receipt
        case None => Some(b.(ops := b.ops[at := op.(state := Unknown)]))
        case Some(r) =>
          if !Authoritative(r, id) then None
          else Some(b.(ops := b.ops[at := op.(state := Settled, cost := r.cost)]))
  }

  // ----- Runs -----

  datatype Action =
    | Reserve(id: string, amount: Option<Amount>, kind: Kind)
    | Finish(id: string, receipt: Option<Receipt>)

  function Written(b: Budget, a: Action): Option<Budget> {
    match a
    case Reserve(id, amount, kind) => Reserving(b, id, amount, kind)
    case Finish(id, receipt) => Finishing(b, id, receipt)
  }

  function Do(b: Budget, a: Action): Budget {
    match Written(b, a)
    case None => b
    case Some(next) => next
  }

  function Exec(b: Budget, actions: seq<Action>): Budget
    decreases |actions|
  {
    if actions == [] then b else Exec(Do(b, actions[0]), actions[1..])
  }

  // ----- What every run keeps -----

  predicate OpOk(op: Operation) {
    && op.reserved > 0.0 && op.kind != OtherKind && (op.kind == Chat ==> op.reserved >= CHAT_FLOOR)
    && (op.state == Settled <==> op.cost.Some?)
  }

  /** Only the last operation may be in flight or unresolved. */
  predicate OneOpen(ops: seq<Operation>) {
    forall i | 0 <= i < |ops| - 1 :: !Open(ops[i])
  }

  predicate DistinctIds(ops: seq<Operation>) {
    forall i, j | 0 <= i < j < |ops| :: ops[i].id != ops[j].id
  }

  function Excess(op: Operation): real {
    Held(op) - op.reserved
  }

  /** Everything is settled, and the last operation exceeded its reservation by all of the overrun, or more. */
  predicate Overran(b: Budget) {
    && b.ops != [] && !AnyOpen(b.ops)
    && Committed(b.ops) - b.limit <= Excess(b.ops[|b.ops| - 1])
  }

  predicate WithinOrOverran(b: Budget) {
    Committed(b.ops) <= b.limit || Overran(b)
  }

  predicate Sound(b: Budget) {
    && (forall i | 0 <= i < |b.ops| :: OpOk(b.ops[i]))
    && OneOpen(b.ops) && DistinctIds(b.ops) && WithinOrOverran(b) && |b.alerts| <= 1
  }

  lemma {:induction false} CommittedUpdate(ops: seq<Operation>, at: nat, op: Operation)
    requires at < |ops|
    ensures Committed(ops[at := op]) == Committed(ops) - Held(ops[at]) + Held(op)
  {
    var next := ops[at := op];
    var n := |ops| - 1;
    if at < n {
      CommittedUpdate(ops[..n], at, op);
      assert next[..n] == ops[..n][at := op];
    } else {
      assert next[..n] == ops[..n];
    }
  }

  lemma CommittedAppend(ops: seq<Operation>, op: Operation)
    ensures Committed(ops + [op]) == Committed(ops) + Held(op)
  {
    assert (ops + [op])[..|ops|] == ops;
  }

  lemma ReservingKeeps(b: Budget, id: string, amount: Option<Amount>, kind: Kind)
    requires Sound(b) && Reserving(b, id, amount, kind).Some?
    ensures Sound(Reserving(b, id, amount, kind).value)
  {
    var next := Reserving(b, id, amount, kind).value;
    var op := Operation(id, kind, Reserved, amount.value, None);
    CommittedAppend(b.ops, op);
    hide Committed, Find;
    assert forall i | 0 <= i < |b.ops| :: next.ops[i] == b.ops[i] && !Open(b.ops[i]);
  }

  lemma FinishingKeeps(b: Budget, id: string, receipt: Option<Receipt>)
    requires Sound(b) && Finishing(b, id, receipt).Some?
    ensures Sound(Finishing(b, id, receipt).value)
  {
    var next := Finishing(b, id, receipt).value;
    var at := Find(b.ops, id).value;
    CommittedUpdate(b.ops, at, next.ops[at]);
    assert Committed(b.ops) <= b.limit by {
      assert Open(b.ops[at]);
    }
    hide Committed, Find;
    assert forall i | 0 <= i < |b.ops| && i != at :: next.ops[i] == b.ops[i] && !Open(b.ops[i]);
    if Committed(next.ops) > b.limit {
      assert Committed(next.ops) - b.limit <= Excess(next.ops[at]);
      assert receipt.Some?;
    }
  }

  /** A receipt overruns the limit exactly when its cost exceeds the reservation by more than what was still free. */
  lemma OverrunExactly(b: Budget, id: string, receipt: Option<Receipt>)
    requires Sound(b) && Finishing(b, id, receipt).Some?
    ensures var next := Finishing(b, id, receipt).value;
            var op := b.ops[Find(b.ops, id).value];
            Committed(next.ops) > b.limit <==>
            receipt.Some? && receipt.value.cost.value - op.reserved > b.limit - Committed(b.ops)
  {
    var next := Finishing(b, id, receipt).value;
    var at := Find(b.ops, id).value;
    CommittedUpdate(b.ops, at, next.ops[at]);
    assert Open(b.ops[at]);
    hide Committed, Find;
  }

  /** Exactly which reservations are admitted, and what an admitted one writes. */
  lemma ReservingExactly(b: Budget, id: string, amount: Option<Amount>, kind: Kind)
    ensures Reserving(b, id, amount, kind).Some?
            <==> && amount.Some? && amount.value > 0.0 && kind in {Chat, Index, Auxiliary}
                 && (kind == Chat ==> amount.value >= 6.50)
                 && (forall op | op in b.ops :: op.id != id && op.state == Settled)
                 && Committed(b.ops) + amount.value <= b.limit
    ensures Reserving(b, id, amount, kind).Some? ==>
              var next := Reserving(b, id, amount, kind).value;
              && next.limit == b.limit && next.alertAt == b.alertAt
              && next.ops == b.ops + [Operation(id, kind, Reserved, amount.value, None)]
              && Committed(next.ops) == Committed(b.ops) + amount.value
  {
    if Reserving(b, id, amount, kind).Some? {
      CommittedAppend(b.ops, Operation(id, kind, Reserved, amount.value, None));
    }
    hide Committed, Find;
    if i :| 0 <= i < |b.ops| && Open(b.ops[i]) {
      assert b.ops[i] in b.ops;
    }
    if Find(b.ops, id).Some? {
      assert b.ops[Find(b.ops, id).value] in b.ops;
    }
  }

  /** The operation at place i alone goes from a to b. */
  predicate OnlyOperation(a: Budget, b: Budget, i: nat, op: Operation) {
    i < |a.ops| && b == Budget(a.limit, a.alertAt, a.alerts, a.ops[i := op])
  }

  /**
    Exactly which results are recorded, and what is written: without a receipt the operation becomes unknown at the
    amount it holds; with one that names it and accounts for everything it is settled for that cost.
   */
  lemma FinishingExactly(b: Budget, id: string, receipt: Option<Receipt>)
    requires Sound(b)
    ensures Finishing(b, id, receipt).Some?
            <==> && (exists op :: op in b.ops && op.id == id && op.state in {Reserved, Unknown})
                 && (receipt.Some? ==>
                       && receipt.value.operation == id && receipt.value.allAccounted && receipt.value.finished
                       && |receipt.value.reference| > 0 && receipt.value.cost.Some?)
    ensures Finishing(b, id, receipt).Some? ==>
              var next := Finishing(b, id, receipt).value;
              exists i | 0 <= i < |b.ops| ::
                && b.ops[i].id == id
                && (receipt.None? ==>
                      && OnlyOperation(b, next, i, Operation(id, b.ops[i].kind, Unknown, b.ops[i].reserved, None))
                      && Committed(next.ops) == Committed(b.ops))
                && (receipt.Some? ==>
                      && OnlyOperation(b, next, i,
                                       Operation(id, b.ops[i].kind, Settled, b.ops[i].reserved, receipt.value.cost))
                      && Committed(next.ops) == Committed(b.ops) - b.ops[i].reserved + receipt.value.cost.value)
  {
    if Find(b.ops, id).Some? {
      var at := Find(b.ops, id).value;
      assert b.ops[at] in b.ops && OpOk(b.ops[at]);
      if Finishing(b, id, receipt).Some? {
        CommittedUpdate(b.ops, at, Finishing(b, id, receipt).value.ops[at]);
      }
    }
    hide Committed, Find;
  }

  lemma DoKeeps(b: Budget, a: Action)
    requires Sound(b)
    ensures Sound(Do(b, a)) && Do(b, a).limit == b.limit && Do(b, a).alertAt == b.alertAt
  {
    hide Sound;
    if Written(b, a).Some? {
      match a
      case Reserve(id, amount, kind) => ReservingKeeps(b, id, amount, kind);
      case Finish(id, receipt) => FinishingKeeps(b, id, receipt);
    }
  }

  /**
    At any point of any run: only the last operation may be in flight or unresolved, and either the commitment is within
    the limit or everything is settled and that last operation exceeded its reservation by at least the whole overrun.
   */
  lemma {:induction false} RunKeeps(b: Budget, actions: seq<Action>)
    requires Sound(b)
    ensures Sound(Exec(b, actions)) && Exec(b, actions).limit == b.limit
    decreases |actions|
  {
    hide Sound, Do;
    if actions != [] {
      DoKeeps(b, actions[0]);
      RunKeeps(Do(b, actions[0]), actions[1..]);
    }
  }

  /** Once over the limit, every action is refused. */
  lemma OverrunRefusesAll(b: Budget, a: Action)
    requires Sound(b) && Committed(b.ops) > b.limit
    ensures Written(b, a).None?
  {
    hide Committed;
    match a
    case Reserve(_, _, _) =>
    case Finish(id, _) =>
      var at := Find(b.ops, id);
      assert at.Some? ==> !Open(b.ops[at.value]);
  }

  /** An overrun is the end of the campaign: whatever is tried afterwards, nothing changes any more. */
  lemma {:induction false} OverrunIsAbsorbing(b: Budget, actions: seq<Action>)
    requires Sound(b) && Committed(b.ops) > b.limit
    ensures Exec(b, actions) == b
    decreases |actions|
  {
    if actions != [] {
      OverrunRefusesAll(b, actions[0]);
      OverrunIsAbsorbing(b, actions[1..]);
    }
  }

  lemma {:induction false} ExecConcat(b: Budget, a: seq<Action>, c: seq<Action>)
    ensures Exec(b, a + c) == Exec(Exec(b, a), c)
    decreases |a|
  {
    hide Do;
    if a == [] {
      assert a + c == c;
    } else {
      assert (a + c)[1..] == a[1..] + c;
      ExecConcat(Do(b, a[0]), a[1..], c);
    }
  }

  /** Over whole runs from a new budget. */
  lemma CampaignIsBounded(id: string, limit: Amount, alertAt: Amount, authorization: string,
                          actions: seq<Action>, later: seq<Action>)
    requires Opened(id, Some(limit), Some(alertAt), authorization).Some?
    ensures var start := Opened(id, Some(limit), Some(alertAt), authorization).value;
            var b := Exec(start, actions);
            && Sound(b) && b.limit == limit
            && (Committed(b.ops) > limit ==> Exec(start, actions + later) == b)
  {
    var start := Opened(id, Some(limit), Some(alertAt), authorization).value;
    RunKeeps(start, actions);
    ExecConcat(start, actions, later);
    var b := Exec(start, actions);
    if Committed(b.ops) > limit {
      OverrunIsAbsorbing(b, later);
    }
  }

  /** What an operation may become: it keeps its terms, a settled one is final, and one underway is never dropped. */
  predicate Advances(a: Operation, b: Operation) {
    && b.id == a.id && b.kind == a.kind && b.reserved == a.reserved
    && (a.state == Settled ==> b == a) && (a.state == Unknown ==> b.state != Reserved)
  }

  ghost predicate Grows(a: Budget, b: Budget) {
    && |a.ops| <= |b.ops| && (forall i | 0 <= i < |a.ops| :: Advances(a.ops[i], b.ops[i]))
    && a.alerts <= b.alerts
  }

  /** Nothing recorded is ever lost: not a reservation, not a receipt, not the alert. */
  lemma {:induction false} NothingIsLost(b: Budget, actions: seq<Action>)
    ensures Grows(b, Exec(b, actions))
    decreases |actions|
  {
    hide Acceptable, AnyOpen, Committed, Authoritative;
    if actions != [] {
      var next := Do(b, actions[0]);
      assert Grows(b, next);
      hide Do;
      NothingIsLost(next, actions[1..]);
      var last := Exec(next, actions[1..]);
      forall i | 0 <= i < |b.ops|
        ensures Advances(b.ops[i], last.ops[i])
      {
        assert Advances(b.ops[i], next.ops[i]) && Advances(next.ops[i], last.ops[i]);
      }
    }
  }

  /** A reservation that reaches the alert boundary leaves an alert, and the first one that does is the one named. */
  lemma AlertBeforeBoundary(b: Budget, id: string, amount: Option<Amount>, kind: Kind)
    requires Sound(b) && Reserving(b, id, amount, kind).Some?
    ensures var next := Reserving(b, id, amount, kind).value;
            && (Committed(next.ops) >= b.alertAt ==>
                  next.alerts == if b.alerts == [] then [Alert(id, Committed(next.ops))] else b.alerts)
            && (Committed(next.ops) < b.alertAt ==> next.alerts == b.alerts)
  {
    CommittedAppend(b.ops, Operation(id, kind, Reserved, amount.value, None));
  }

  /** An accepted reservation that takes the commitment to the alert boundary. */
  predicate Reaches(b: Budget, a: Action) {
    a.Reserve? && Written(b, a).Some? && Committed(Written(b, a).value.ops) >= b.alertAt
  }

  lemma AlertStep(b: Budget, a: Action)
    requires Sound(b)
    ensures Do(b, a).alerts
            == if Reaches(b, a) && b.alerts == [] then [Alert(a.id, Committed(Do(b, a).ops))] else b.alerts
  {
    match a
    case Finish(_, _) =>
    case Reserve(id, amount, kind) =>
      if Reserving(b, id, amount, kind).Some? {
        AlertBeforeBoundary(b, id, amount, kind);
      }
  }

  /** The ledger after the first i actions. */
  function At(start: Budget, actions: seq<Action>, i: nat): Budget
    requires i <= |actions|
  {
    Exec(start, actions[..i])
  }

  /** The action at place i, in its run, is the first that reaches the boundary. */
  ghost predicate FirstToReach(start: Budget, actions: seq<Action>, i: nat) {
    && i < |actions| && Reaches(At(start, actions, i), actions[i])
    && forall j | 0 <= j < i :: !Reaches(At(start, actions, j), actions[j])
  }

  lemma AtNext(start: Budget, actions: seq<Action>, i: nat)
    requires i < |actions|
    ensures At(start, actions, i + 1) == Do(At(start, actions, i), actions[i])
  {
    hide Do;
    assert actions[..i + 1] == actions[..i] + [actions[i]];
    ExecConcat(start, actions[..i], [actions[i]]);
    assert [actions[i]][1..] == [];
  }

  function FirstReaching(start: Budget, actions: seq<Action>, n: nat): (i: Option<nat>)
    requires n <= |actions|
    ensures i.Some? ==> i.value < n
  {
    if n == 0 then None
    else if FirstReaching(start, actions, n - 1).Some? then FirstReaching(start, actions, n - 1)
    else if Reaches(At(start, actions, n - 1), actions[n - 1]) then Some(n - 1)
    else None
  }

  lemma {:induction false} FirstReachingIsFirst(start: Budget, actions: seq<Action>, n: nat)
    requires n <= |actions|
    ensures match FirstReaching(start, actions, n)
            case Some(i) => FirstToReach(start, actions, i)
            case None => forall i | 0 <= i < n :: !Reaches(At(start, actions, i), actions[i])
  {
    hide At, Reaches;
    if n > 0 {
      FirstReachingIsFirst(start, actions, n - 1);
    }
  }

  /** The alert that names the action at place i. */
  function Naming(start: Budget, actions: seq<Action>, i: nat): Alert
    requires i < |actions|
  {
    Alert(actions[i].id, Committed(At(start, actions, i + 1).ops))
  }

  lemma {:induction false} AlertsUpTo(start: Budget, actions: seq<Action>, n: nat)
    requires Sound(start) && start.alerts == [] && n <= |actions|
    ensures At(start, actions, n).alerts ==
            match FirstReaching(start, actions, n) case None => [] case Some(i) => [Naming(start, actions, i)]
  {
    if n > 0 {
      AlertsUpTo(start, actions, n - 1);
      RunKeeps(start, actions[..n - 1]);
      AtNext(start, actions, n - 1);
      AlertStep(At(start, actions, n - 1), actions[n - 1]);
      hide At, Do, Reaches, Sound;
    }
  }

  /**
    The alert of a run: there is one exactly when some reservation reached the boundary, and then it is a single one,
    which names the first that did and what was committed with it.
   */
  lemma AlertNamesTheFirst(start: Budget, actions: seq<Action>)
    requires Sound(start) && start.alerts == []
    ensures var alerts := Exec(start, actions).alerts;
            && (alerts == [] <==> forall i | 0 <= i < |actions| :: !Reaches(At(start, actions, i), actions[i]))
            && (alerts != [] ==>
                  exists i: nat | FirstToReach(start, actions, i) :: alerts == [Naming(start, actions, i)])
  {
    AlertsUpTo(start, actions, |actions|);
    FirstReachingIsFirst(start, actions, |actions|);
    assert actions[..|actions|] == actions;
    assert Exec(start, actions) == At(start, actions, |actions|);
    hide At, Reaches, Naming, Exec;
  }

  // ----- The ledger file -----

  class BudgetLedger {
    var file: Option<Budget>

    constructor ()
      ensures file.None?
    {
      file := None;
    }

    method Initialize(id: string, limit: Option<Amount>, alertAt: Option<Amount>, authorization: string)
      returns (ok: bool)
      modifies this
      ensures ok <==> && old(file).None? && limit.Some? && alertAt.Some? && 0.0 < alertAt.value < limit.value
                      && |id| > 0 && |authorization| > 0
      ensures file == if ok then Some(Budget(limit.value, alertAt.value, [], [])) else old(file)
      ensures old(file).None? ==> file == Opened(id, limit, alertAt, authorization)
      ensures ok ==> Sound(file.value) && Committed(file.value.ops) == 0.0
    {
      if limit.None? || alertAt.None? || id == "" || authorization == "" || !(0.0 < alertAt.value < limit.value) {
        return false;
      }
      if file.Some? {
        return false;
      }
      file := Some(Budget(limit.value, alertAt.value, [], []));
      return true;
    }

    method Total(ops: seq<Operation>) returns (total: real)
      ensures total == Committed(ops)
    {
      total := 0.0;
      for i := 0 to |ops|
        invariant total == Committed(ops[..i])
      {
        assert ops[..i + 1][..i] == ops[..i];
        total := total + Held(ops[i]);
      }
      assert ops[..|ops|] == ops;
    }

    method Reserve(id: string, amount: Option<Amount>, kind: Kind) returns (ok: bool, alerted: bool)
      modifies this
      ensures old(file).None? ==> !ok && file == old(file)
      ensures old(file).Some? ==>
                var next := Reserving(old(file).value, id, amount, kind);
                ok == next.Some? && file == if ok then next else old(file)
      ensures alerted == (ok && old(file.value.alerts) != file.value.alerts)
    {
      hide Committed;
      if !Acceptable(amount, kind) || file.None? {
        return false, false;
      }
      var b := file.value;
      var open := false;
      for i := 0 to |b.ops|
        invariant forall j | 0 <= j < i :: b.ops[j].id != id
        invariant open == exists j | 0 <= j < i :: Open(b.ops[j])
      {
        if b.ops[i].id == id {
          return false, false;
        }
        open := open || Open(b.ops[i]);
      }
      if open {
        return false, false;
      }
      var total := Total(b.ops);
      total := total + amount.value;
      if total > b.limit {
        return false, false;
      }
      alerted := total >= b.alertAt && b.alerts == [];
      var alerts := if alerted then [Alert(id, total)] else b.alerts;
      file := Some(b.(alerts := alerts, ops := b.ops + [Operation(id, kind, OpState.Reserved, amount.value, None)]));
      return true, alerted;
    }

    /** A receipt over the limit is written first; only then does the ledger raise. */
    method Finish(id: string, receipt: Option<Receipt>) returns (raised: bool)
      modifies this
      ensures old(file).None? ==> raised && file == old(file)
      ensures old(file).Some? ==>
                var next := Finishing(old(file).value, id, receipt);
                && file == (if next.Some? then next else old(file))
                && raised == (next.None? || Committed(next.value.ops) > next.value.limit)
    {
      hide Committed;
      if file.None? {
        return true;
      }
      var b := file.value;
      var at := Find(b.ops, id);
      if at.None? || b.ops[at.value].state == Settled {
        return true;
      }
      var op := b.ops[at.value];
      if receipt.None? {
        op := op.(state := Unknown);
      } else {
        if !Authoritative(receipt.value, id) {
          return true;
        }
        op := op.(state := Settled, cost := receipt.value.cost);
      }
      var next := b.(ops := b.ops[at.value := op]);
      file := Some(next);
      var total := Total(next.ops);
      return total > next.limit;
    }
  }
}
