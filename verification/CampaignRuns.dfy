/** What every run of the campaign system keeps, whatever the interleaving and wherever processes die. */
module CampaignRuns {
  import opened Outcomes
  import opened Budget
  import opened Ledger
  import opened Campaign
  import opened CampaignSteps

  /** Spend cap, in every run: all reservations plus the historical floor stay within the largest cap ever admitted. */
  lemma SpendCap(plans: Plans, actions: seq<Action>)
    ensures var s := Exec(Init(plans), actions);
            && s.highestCap <= MAX_AUTHORIZED_CAP
            && (s.rows == [] || HISTORICAL_FLOOR + Outstanding(Held(s.rows)) <= s.highestCap)
  {
    RunKeeps(Init(plans), actions);
  }

  /** At most once, in every run: no request is ever sent twice, nor any sample of a plan under two requests. */
  lemma AtMostOnce(plans: Plans, actions: seq<Action>)
    ensures var s := Exec(Init(plans), actions);
            && Distinct(s.sends)
            && (forall r | r in s.sends :: Underway(s.rows, r))
            && (forall a: nat, b: nat | a < |s.rows| && b < |s.rows|
                                        && s.rows[a].request in s.sends && s.rows[b].request in s.sends
                                        && s.rows[a].plan == s.rows[b].plan && s.rows[a].sample == s.rows[b].sample ::
                  s.rows[a].request == s.rows[b].request)
  {
    RunKeeps(Init(plans), actions);
  }

  /**
    From any reachable state, whatever happens next, no row disappears, moves backwards, or changes a conversation or an
    operation that is already set; a settled or retained cost stays so and no reservation grows. One action takes a row
    at most from RESERVED to DISPATCHING or from there to OBSERVING.
   */
  lemma RowsOnlyAdvance(plans: Plans, before: seq<Action>, after: seq<Action>, next: Action)
    ensures var s := Exec(Init(plans), before);
            && TableEvolves(s.rows, Exec(s, after).rows)
            && Stepwise(s.rows, Do(s, next).rows)
  {
    RunKeeps(Init(plans), before);
    RunKeeps(Exec(Init(plans), before), after);
    StepKeeps(Exec(Init(plans), before), next);
  }

  /** In every run each plan holds a prefix of its samples, and only its last row may still be unsettled. */
  lemma SettledPrefix(plans: Plans, actions: seq<Action>)
    ensures PrefixOk(plans, Exec(Init(plans), actions).rows)
  {
    RunKeeps(Init(plans), actions);
    PlansNeverChange(Init(plans), actions);
  }

  lemma {:induction false} PlansNeverChange(s: Sys, actions: seq<Action>)
    ensures Exec(s, actions).plans == s.plans
    decreases |actions|
  {
    if actions != [] {
      PlanStays(s, actions[0]);
      hide Do;
      PlansNeverChange(Do(s, actions[0]), actions[1..]);
    }
  }

  lemma PlanStays(s: Sys, a: Action)
    ensures Do(s, a).plans == s.plans
  {
    hide ReserveTx, AttachTx, DispatchTx, ObserveTx, ReconcileTx, RetainTx, SwapTx, Decide, After;
  }

  lemma ScanReads(s: Sys, p: nat, plan: string, disk: Disk)
    requires PcOf(s, p) == Idle && PcOf(Do(s, Scan(p, plan, disk)), p).Preflighting?
    ensures plan in s.plans
    ensures var decision := Decide(s.plans[plan], plan, s.rows, disk);
            decision.Preflight? && decision.sample == PcOf(Do(s, Scan(p, plan, disk)), p).sample
  {
    hide Decide;
  }

  lemma ClosedIsObserved(rows: Table)
    requires Sound(rows)
    ensures forall i | 0 <= i < |rows| && rows[i].reservation.state != Untouched :: rows[i].operation.Some?
  {
    hide Keyed;
  }

  /**
    The settled prefix of a plan up to a sample: its rows are, in order, exactly the samples before that one, every one
    observed and settled or fully retained.
   */
  ghost predicate SettledUpTo(samples: seq<string>, rows: Table, plan: string, sample: string) {
    && (exists n | 0 <= n < |samples| :: samples[n] == sample && PlanSamples(rows, plan) == samples[..n])
    && (forall i | 0 <= i < |rows| && rows[i].plan == plan ::
          rows[i].operation.Some? && rows[i].reservation.state != Untouched)
  }

  lemma ReadyIsSettled(plans: Plans, rows: Table, plan: string, sample: string)
    requires Sound(rows) && PrefixOk(plans, rows) && plan in plans
    requires exists n: nat :: ReadyAt(rows, plans[plan], plan, sample, n)
    ensures SettledUpTo(plans[plan], rows, plan, sample) <==> !HasSample(rows, plan, sample)
  {
    hide Sound, PrefixOk, RowOk;
    if HasSample(rows, plan, sample) {
      PlanSamplesMembers(rows, plan, sample);
    } else {
      var n: nat :| ReadyAt(rows, plans[plan], plan, sample, n);
      ReadyExtends(plans, rows, plan, sample, n);
      ClosedIsObserved(rows);
    }
  }

  /**
    Whenever a process is at `preflight` for a sample, in any run: the ledger holds exactly the settled samples before
    that one if and only if no rival has reserved the sample since the process scanned.
   */
  lemma PreflightPrefixExactly(plans: Plans, actions: seq<Action>, p: nat)
    requires PcOf(Exec(Init(plans), actions), p).Preflighting?
    ensures var s := Exec(Init(plans), actions);
            var pc := PcOf(s, p);
            && pc.plan in plans
            && (SettledUpTo(plans[pc.plan], s.rows, pc.plan, pc.sample) <==> !HasSample(s.rows, pc.plan, pc.sample))
  {
    RunKeeps(Init(plans), actions);
    PlansNeverChange(Init(plans), actions);
    var s := Exec(Init(plans), actions);
    hide Exec;
    InvParts(s);
    assert PcOk(s, s.pcs[p]);
    hide Inv, Sound, PrefixOk, ReadyAt, SettledUpTo;
    ReadyIsSettled(plans, s.rows, s.pcs[p].plan, s.pcs[p].sample);
  }

  /** A scan that goes on to `preflight` has always just read the settled prefix of the sample it will pay for. */
  lemma PreflightSeesSettledPrefix(plans: Plans, actions: seq<Action>, p: nat, plan: string, disk: Disk)
    requires plan in plans
    requires var s := Exec(Init(plans), actions);
             PcOf(s, p) == Idle && PcOf(Do(s, Scan(p, plan, disk)), p).Preflighting?
    ensures var s := Exec(Init(plans), actions);
            var sample := PcOf(Do(s, Scan(p, plan, disk)), p).sample;
            SettledUpTo(plans[plan], s.rows, plan, sample) && !HasSample(s.rows, plan, sample)
  {
    RunKeeps(Init(plans), actions);
    PlansNeverChange(Init(plans), actions);
    hide Exec, Inv, Decide, Sound, PrefixOk, PlansOk, RowOk;
    var s := Exec(Init(plans), actions);
    ScanReads(s, p, plan, disk);
    hide Do, ReadyAt, SettledUpTo;
    var sample := Decide(plans[plan], plan, s.rows, disk).sample;
    SampleRowsSettled(plans[plan], plan, s.rows, disk, []);
    assert [] + plans[plan] == plans[plan];
    InvParts(s);
    ReadyIsSettled(plans, s.rows, plan, sample);
  }

  // ----- What a scan decides -----

  predicate IsRowOf(row: Row, rows: Table, plan: string, sample: string) {
    row in rows && row.plan == plan && row.sample == sample
  }

  /** The receipt belongs to this sample, shows its own resources and the operation the ledger has for it. */
  predicate BelongsTo(saved: Saved, row: Row) {
    saved.identity && saved.resources && saved.operation == row.operation
  }

  /** Its cost is settled, or retained in full with this very receipt as the proof. */
  predicate CostIsClosed(saved: Saved, row: Row) {
    || row.reservation.state == Settled
    || (row.reservation.state == Retained && row.operation.Some?
        && RetainedCost(row.reservation, row.operation.value, Some(Shown(saved, row.operation.value))))
  }

  /** A sample there is nothing left to do for. */
  ghost predicate IsDone(sample: string, plan: string, rows: Table, disk: Disk) {
    sample in disk && exists row | IsRowOf(row, rows, plan, sample) ::
      BelongsTo(disk[sample], row) && disk[sample].verified && CostIsClosed(disk[sample], row)
  }

  /** What a scan must decide at the first sample that is not done. */
  ghost predicate IsNext(d: Decision, sample: string, plan: string, rows: Table, disk: Disk) {
    match d
    case Collected => false
    case Preflight(s) => s == sample && sample !in disk && !HasSample(rows, plan, sample)
    case NeedsReservation(request) =>
      sample !in disk &&
      exists row | IsRowOf(row, rows, plan, sample) :: row.state == Reserved && row.request == request
    case Observe(s, request, operation) =>
      s == sample && sample !in disk &&
      exists row | IsRowOf(row, rows, plan, sample) ::
        row.state != Reserved && row.request == request && row.operation == operation
    case NeedsEvidence(s) =>
      s == sample && sample in disk && !disk[sample].verified
      && exists row | IsRowOf(row, rows, plan, sample) :: BelongsTo(disk[sample], row)
    case Account(request, operation) =>
      sample in disk && disk[sample].verified &&
      exists row | IsRowOf(row, rows, plan, sample) ::
        && BelongsTo(disk[sample], row) && row.reservation.state == Untouched
        && row.request == request && row.operation == operation
    case Stopped =>
      sample in disk && forall row | IsRowOf(row, rows, plan, sample) ::
        || !BelongsTo(disk[sample], row)
        || (disk[sample].verified && row.reservation.state == Retained && !CostIsClosed(disk[sample], row))
  }

  lemma OneRow(rows: Table, plan: string, sample: string, row: Row)
    requires Keyed(rows) && IsRowOf(row, rows, plan, sample)
    ensures SampleRow(rows, plan, sample) == Some(row)
  {
    var found := SampleRow(rows, plan, sample);
    var i :| 0 <= i < |rows| && rows[i] == row;
    var j :| 0 <= j < |rows| && rows[j] == found.value;
    assert i == j;
  }

  lemma NoRow(rows: Table, plan: string, sample: string)
    requires SampleRow(rows, plan, sample).None?
    ensures !HasSample(rows, plan, sample) && forall row :: !IsRowOf(row, rows, plan, sample)
  {
  }

  /** At one sample: the scan goes on exactly when it is done, and otherwise decides what it must. */
  lemma DecideHead(samples: seq<string>, plan: string, rows: Table, disk: Disk)
    requires samples != [] && Sound(rows)
    ensures IsDone(samples[0], plan, rows, disk) ==>
              Decide(samples, plan, rows, disk) == Decide(samples[1..], plan, rows, disk)
    ensures !IsDone(samples[0], plan, rows, disk) ==>
              IsNext(Decide(samples, plan, rows, disk), samples[0], plan, rows, disk)
  {
    var sample := samples[0];
    var found := SampleRow(rows, plan, sample);
    if found.Some? {
      assert IsRowOf(found.value, rows, plan, sample);
      forall row | IsRowOf(row, rows, plan, sample)
        ensures row == found.value
      {
        OneRow(rows, plan, sample, row);
      }
    } else {
      NoRow(rows, plan, sample);
    }
    hide RetainedCost, SampleRow, Sound;
  }

  /**
    A scan reports the campaign collected exactly when nothing is left to do for any sample; otherwise it decides by the
    first sample for which something is.
   */
  lemma {:induction false} DecideExactly(samples: seq<string>, plan: string, rows: Table, disk: Disk)
    requires Sound(rows)
    ensures var d := Decide(samples, plan, rows, disk);
            && (d.Collected? <==> forall k | 0 <= k < |samples| :: IsDone(samples[k], plan, rows, disk))
            && (!d.Collected? ==>
                  exists n | 0 <= n < |samples| ::
                    && !IsDone(samples[n], plan, rows, disk) && IsNext(d, samples[n], plan, rows, disk)
                    && forall k | 0 <= k < n :: IsDone(samples[k], plan, rows, disk))
    decreases |samples|
  {
    if samples != [] {
      DecideHead(samples, plan, rows, disk);
      DecideExactly(samples[1..], plan, rows, disk);
      hide IsDone, IsNext, Decide, Sound;
      var d, rest := Decide(samples, plan, rows, disk), samples[1..];
      if IsDone(samples[0], plan, rows, disk) {
        if !d.Collected? {
          var n :| 0 <= n < |rest| && !IsDone(rest[n], plan, rows, disk) && IsNext(d, rest[n], plan, rows, disk)
                   && forall k | 0 <= k < n :: IsDone(rest[k], plan, rows, disk);
          assert samples[n + 1] == rest[n];
          assert forall k | 0 < k <= n :: samples[k] == rest[k - 1];
        } else {
          assert forall k | 0 < k < |samples| :: samples[k] == rest[k - 1];
        }
      } else {
        NotCollected(d, samples[0], plan, rows, disk);
      }
    }
  }

  lemma NotCollected(d: Decision, sample: string, plan: string, rows: Table, disk: Disk)
    requires IsNext(d, sample, plan, rows, disk)
    ensures !d.Collected?
  {
  }
}
