/**
  Any number of runner processes (tools/chat-eval-runner.py) and operators sharing one ledger. Every transaction, every
  paid request and every reading of a remote answer is one atomic action, actions interleave freely, and a process may
  crash between any two of them, losing everything but the ledger.
 */
module Campaign {
  import opened Outcomes
  import opened Arithmetic
  import opened Budget
  import opened Ledger

  /** What `step` reads of a receipt file; the files may hold anything. */
  datatype Saved = Saved(
    identity: bool, resources: bool, operation: Option<string>, state: Terminal, verified: bool, digest: string)

  type Disk = map<string, Saved>

  /** The receipt as the check of a retained cost reads it. */
  function Shown(saved: Saved, operation: string): Receipt {
    Receipt(operation, saved.state, None, saved.verified, saved.digest)
  }

  datatype Decision =
    | Collected
    | Stopped
    | NeedsEvidence(sample: string)
    | NeedsReservation(request: string)
    | Preflight(sample: string)
    | Observe(sample: string, request: string, operation: Option<string>)
    | Account(request: string, operation: Option<string>)

  function SampleRow(rows: Table, plan: string, sample: string): (r: Option<Row>)
    ensures r.Some? ==> r.value in rows && r.value.plan == plan && r.value.sample == sample
    ensures r.None? <==> !HasSample(rows, plan, sample)
  {
    if rows == [] then None
    else if rows[|rows| - 1].plan == plan && rows[|rows| - 1].sample == sample then Some(rows[|rows| - 1])
    else SampleRow(rows[..|rows| - 1], plan, sample)
  }

  /** The scan of `step`: the first sample that still needs an action, on one reading of the ledger. */
  function Decide(samples: seq<string>, plan: string, rows: Table, disk: Disk): Decision {
    if samples == [] then Collected
    else
      var sample := samples[0];
      var row := SampleRow(rows, plan, sample);
      if sample in disk then
        var saved := disk[sample];
        if !saved.identity || row.None? || !saved.resources || saved.operation != row.value.operation then Stopped
        else if !saved.verified then NeedsEvidence(sample)
        else
          match row.value.reservation.state
          case Retained =>
            if row.value.operation.Some?
               && RetainedCost(row.value.reservation, row.value.operation.value,
                               Some(Shown(saved, row.value.operation.value)))
            then Decide(samples[1..], plan, rows, disk)
            else Stopped
          case Settled => Decide(samples[1..], plan, rows, disk)
          case Untouched => Account(row.value.request, row.value.operation)
      else if row.None? then Preflight(sample)
      else if row.value.state == Reserved then NeedsReservation(row.value.request)
      else Observe(sample, row.value.request, row.value.operation)
  }

  // ----- The system -----

  /** Where a process stands inside one call of `step`. */
  datatype Pc =
    | Idle
    | Preflighting(plan: string, sample: string)
    | Attaching(request: string)
    | Launching(request: string)
    | Sending(request: string)
    | Recovering(request: string)
    | Handling(request: string, operation: string)
    | Accounting(request: string, operation: string)

  /**
    `rows` is durable and `pcs` is process memory. The rest is history no process reads: every request sent, in order,
    the operation the service made for each, what it truly costs and their sum, and the largest cap of an admission.
   */
  datatype Sys = Sys(
    plans: map<string, seq<string>>, rows: Table, pcs: map<nat, Pc>,
    sends: seq<string>, minted: map<string, string>, billed: map<string, real>, spent: real, highestCap: real)

  datatype Action =
    | Scan(p: nat, plan: string, disk: Disk)
    | Reserve(p: nat, request: string, snapshot: Snapshot, bound: real, now: real, authorized: Option<real>)
    | Attach(p: nat, conversation: string)
    | Dispatch(p: nat)
    | Send(p: nat, operation: string, cost: real)
    | Recover(p: nat, answer: Option<string>)
    | Observed(p: nat)
    | Reconcile(p: nat, cost: real)
    | Crash(p: nat)
    | Seed(request: string, plan: string, sample: string, snapshot: Snapshot, bound: real, now: real,
           authorized: Option<real>)
    | Retain(request: string, receipt: Receipt)
    | Adjust(request: string, operation: string, cost: real)
    | Swap(entry: Row, cost: real)

  function PcOf(s: Sys, p: nat): Pc {
    if p in s.pcs then s.pcs[p] else Idle
  }

  function Go(s: Sys, p: nat, pc: Pc): Sys {
    s.(pcs := s.pcs[p := pc])
  }

  function After(decision: Decision, plan: string): Pc {
    match decision
    case Preflight(sample) => Preflighting(plan, sample)
    case Observe(_, request, Some(operation)) => Handling(request, operation)
    case Observe(_, request, None) => Recovering(request)
    case Account(request, Some(operation)) => Accounting(request, operation)
    case _ => Idle
  }

  function Commit(s: Sys, p: nat, tx: Option<Table>, next: Pc): Sys {
    match tx
    case None => Go(s, p, Idle)
    case Some(rows) => Go(s.(rows := rows), p, next)
  }

  /** The request reaches the service, which makes `operation` for it and will bill `cost`. */
  function Sent(s: Sys, request: string, operation: string, cost: real): Sys {
    s.(sends := s.sends + [request], minted := s.minted[request := operation],
       billed := s.billed[request := cost], spent := s.spent + cost)
  }

  /** One action. An action its process or the ledger does not allow leaves everything as it is, or ends the step. */
  function Do(s: Sys, a: Action): Sys {
    match a
    case Scan(p, plan, disk) =>
      if PcOf(s, p) != Idle || plan !in s.plans then s
      else Go(s, p, After(Decide(s.plans[plan], plan, s.rows, disk), plan))
    case Reserve(p, request, snapshot, bound, now, authorized) =>
      (match PcOf(s, p)
       case Preflighting(plan, sample) =>
         var tx := ReserveTx(s.rows, request, plan, sample, snapshot, bound, now, authorized);
         var next := Commit(s, p, tx, Attaching(request));
         if tx.None? then next else Capped(next, authorized)
       case _ => s)
    case Attach(p, conversation) =>
      (match PcOf(s, p)
       case Attaching(request) => Commit(s, p, AttachTx(s.rows, request, conversation), Launching(request))
       case _ => s)
    case Dispatch(p) =>
      (match PcOf(s, p)
       case Launching(request) => Commit(s, p, DispatchTx(s.rows, request), Sending(request))
       case _ => s)
    case Send(p, operation, cost) =>
      (match PcOf(s, p)
       case Sending(request) =>
         Go(Sent(s, request, operation, cost), p, if operation == "" then Idle else Handling(request, operation))
       case _ => s)
    case Recover(p, answer) =>
      (match PcOf(s, p)
       case Recovering(request) =>
         Go(s, p, if answer.None? || answer.value == "" then Idle else Handling(request, answer.value))
       case _ => s)
    case Observed(p) =>
      (match PcOf(s, p)
       case Handling(request, operation) => Commit(s, p, ObserveTx(s.rows, request, operation), Idle)
       case _ => s)
    case Reconcile(p, cost) =>
      (match PcOf(s, p)
       case Accounting(request, operation) => Commit(s, p, ReconcileTx(s.rows, request, operation, cost), Idle)
       case _ => s)
    case Crash(p) => Go(s, p, Idle)
    case Seed(request, plan, sample, snapshot, bound, now, authorized) =>
      if plan in s.plans then s
      else
        (match ReserveTx(s.rows, request, plan, sample, snapshot, bound, now, authorized)
         case None => s
         case Some(rows) => Capped(s.(rows := rows), authorized))
    case Retain(request, receipt) =>
      if !IsHexDigest(receipt.digest) then s else Settlement(s, RetainTx(s.rows, request, receipt))
    case Adjust(request, operation, cost) => Settlement(s, ReconcileTx(s.rows, request, operation, cost))
    case Swap(entry, cost) => Settlement(s, SwapTx(s.rows, entry, cost))
  }

  function Settlement(s: Sys, tx: Option<Table>): Sys {
    match tx
    case None => s
    case Some(rows) => s.(rows := rows)
  }

  /** Records the cap of an accepted admission. */
  function Capped(s: Sys, authorized: Option<real>): Sys {
    var cap := AdmissionCap(authorized);
    if cap.None? then s else s.(highestCap := Max(s.highestCap, cap.value))
  }

  function Exec(s: Sys, actions: seq<Action>): Sys
    decreases |actions|
  {
    if actions == [] then s else Exec(Do(s, actions[0]), actions[1..])
  }

  function Init(plans: map<string, seq<string>>): Sys {
    Sys(plans, [], map[], [], map[], map[], 0.0, 0.0)
  }

  // ----- The invariant -----

  ghost predicate Distinct<T>(xs: seq<T>) {
    forall i, j | 0 <= i < j < |xs| :: xs[i] != xs[j]
  }

  /** The samples a plan has in the ledger, in ledger order. */
  function PlanSamples(rows: Table, plan: string): seq<string> {
    if rows == [] then []
    else
      var last := rows[|rows| - 1];
      PlanSamples(rows[..|rows| - 1], plan) + if last.plan == plan then [last.sample] else []
  }

  ghost predicate Underway(rows: Table, request: string) {
    exists i | 0 <= i < |rows| :: rows[i].request == request && rows[i].state != Reserved
  }

  ghost predicate Known(rows: Table, plans: map<string, seq<string>>, request: string) {
    exists i | 0 <= i < |rows| :: rows[i].request == request && rows[i].plan in plans
  }

  ghost predicate Closed(rows: Table, plan: string, sample: string) {
    exists i | 0 <= i < |rows| ::
      rows[i].plan == plan && rows[i].sample == sample && rows[i].reservation.state != Untouched
  }

  /** `sample` is the n-th of its plan and every earlier one is settled or fully retained. */
  ghost predicate ReadyAt(rows: Table, samples: seq<string>, plan: string, sample: string, n: nat) {
    n < |samples| && samples[n] == sample && forall k | 0 <= k < n :: Closed(rows, plan, samples[k])
  }

  ghost predicate PcOk(s: Sys, pc: Pc) {
    match pc
    case Preflighting(plan, sample) =>
      plan in s.plans && exists n: nat :: ReadyAt(s.rows, s.plans[plan], plan, sample, n)
    case Attaching(request) => Known(s.rows, s.plans, request)
    case Launching(request) => Known(s.rows, s.plans, request)
    case Sending(request) => Underway(s.rows, request) && request !in s.sends
    case _ => true
  }

  ghost predicate MoneyOk(s: Sys) {
    s.highestCap <= MAX_AUTHORIZED_CAP
    && (s.rows == [] || HISTORICAL_FLOOR + Outstanding(Held(s.rows)) <= s.highestCap)
  }

  ghost predicate SendsOk(s: Sys) {
    && Distinct(s.sends)
    && (forall r | r in s.sends :: Underway(s.rows, r))
    && (forall p, q | p in s.pcs && q in s.pcs && p != q && s.pcs[p].Sending? :: s.pcs[p] != s.pcs[q])
  }

  ghost predicate PcsOk(s: Sys) {
    forall p | p in s.pcs :: PcOk(s, s.pcs[p])
  }

  /** In every plan the ledger holds a prefix of the samples, of which only the last may be unsettled. */
  ghost predicate PrefixOk(plans: map<string, seq<string>>, rows: Table) {
    && (forall i | 0 <= i < |rows| && rows[i].state != Reserved :: rows[i].plan in plans)
    && (forall plan | plan in plans :: PlanSamples(rows, plan) <= plans[plan])
    && (forall i, j | 0 <= i < j < |rows| && rows[i].plan in plans && rows[i].plan == rows[j].plan ::
          rows[i].reservation.state != Untouched)
  }

  ghost predicate PlansOk(plans: map<string, seq<string>>) {
    forall plan | plan in plans :: Distinct(plans[plan])
  }

  /** The campaigns: each names its samples once. */
  type Plans = m: map<string, seq<string>> | PlansOk(m) witness map[]

  ghost predicate Inv(s: Sys) {
    PlansOk(s.plans) && Sound(s.rows) && MoneyOk(s) && SendsOk(s) && PcsOk(s) && PrefixOk(s.plans, s.rows)
  }
}
