/** What a failed operation is settled for (tools/chat-eval-recover-failed-runtime.py). */
module Recovery {
  import opened Outcomes
  import opened Arithmetic

  /** The usage one attempt reported; a cost that is not finite is no cost. */
  datatype Report = Report(attempt: string, attemptedLegs: int, phases: seq<string>, observed: Option<real>)

  /** One request as the gateway booked it and as the provider billed it. */
  datatype Call = Call(request: string, spend: real, upstream: real)

  // ----- Attempt totals -----

  ghost predicate Distinct(s: seq<string>) {
    forall i, j | 0 <= i < j < |s| :: s[i] != s[j]
  }

  function Members(s: seq<string>): set<string> {
    set x | x in s
  }

  function Attempts(reports: seq<Report>): seq<string> {
    seq(|reports|, i requires 0 <= i < |reports| => reports[i].attempt)
  }

  ghost predicate ReportOk(r: Report) {
    && r.attemptedLegs == |r.phases| && 1 <= r.attemptedLegs <= 2 && Distinct(r.phases)
    && r.observed.Some? && r.observed.value >= 0.0
  }

  function Legs(reports: seq<Report>): int {
    if reports == [] then 0 else Legs(reports[..|reports| - 1]) + reports[|reports| - 1].attemptedLegs
  }

  function Observed(reports: seq<Report>): real {
    if reports == [] then 0.0
    else
      Observed(reports[..|reports| - 1]) +
      match reports[|reports| - 1].observed
      case None => 0.0
      case Some(cost) => cost
  }

  /** One to four attempts, each reported exactly once, every report complete. */
  ghost predicate CompleteHistory(ids: seq<string>, reports: seq<Report>) {
    && 1 <= |ids| <= 4 && |reports| == |ids|
    && Distinct(ids) && Distinct(Attempts(reports)) && Members(Attempts(reports)) == Members(ids)
    && forall i | 0 <= i < |reports| :: ReportOk(reports[i])
  }

  lemma MembersAppend(s: seq<string>, x: string)
    ensures Members(s + [x]) == Members(s) + {x}
  {
  }

  lemma {:induction false} MembersSize(s: seq<string>)
    ensures |Members(s)| <= |s|
    ensures |Members(s)| == |s| <==> Distinct(s)
  {
    if s != [] {
      var front, last := s[..|s| - 1], s[|s| - 1];
      MembersSize(front);
      assert s == front + [last];
      MembersAppend(front, last);
      hide Members;
      DistinctAppend(front, last);
    }
  }

  lemma DistinctAppend(front: seq<string>, last: string)
    ensures Distinct(front + [last]) <==> Distinct(front) && last !in front
    ensures last in Members(front) <==> last in front
  {
    var s := front + [last];
    assert forall i | 0 <= i < |front| :: s[i] == front[i];
    if last in front {
      var i :| 0 <= i < |front| && front[i] == last;
      assert s[i] == s[|front|];
    }
  }

  method AttemptTotals(ids: seq<string>, reports: seq<Report>) returns (totals: Option<(int, real)>)
    ensures totals.Some? <==> CompleteHistory(ids, reports)
    ensures totals.Some? ==>
              && totals.value == (Legs(reports), Observed(reports))
              && |reports| <= totals.value.0 <= 2 * |reports| && totals.value.1 >= 0.0
  {
    hide Members, Distinct;
    MembersSize(ids);
    MembersSize(Attempts(reports));
    if !(1 <= |ids| <= 4) || |Members(ids)| != |ids|
       || |reports| != |ids| || Members(Attempts(reports)) != Members(ids) {
      return None;
    }
    var legs, cost := 0, 0.0;
    for i := 0 to |reports|
      invariant forall j | 0 <= j < i :: ReportOk(reports[j])
      invariant legs == Legs(reports[..i]) && i <= legs <= 2 * i
      invariant cost == Observed(reports[..i]) && cost >= 0.0
    {
      var report := reports[i];
      MembersSize(report.phases);
      if report.attemptedLegs != |report.phases| || !(1 <= report.attemptedLegs <= 2)
         || |Members(report.phases)| != |report.phases| {
        return None;
      }
      if report.observed.None? || report.observed.value < 0.0 {
        return None;
      }
      assert reports[..i + 1][..i] == reports[..i];
      cost := cost + report.observed.value;
      legs := legs + report.attemptedLegs;
    }
    assert reports[..|reports|] == reports;
    return Some((legs, cost));
  }

  /** Both totals are sums over the reports, whatever their order in the history. */
  lemma {:induction false} TotalsAreSums(a: seq<Report>, b: seq<Report>)
    ensures Legs(a + b) == Legs(a) + Legs(b) && Observed(a + b) == Observed(a) + Observed(b)
    ensures |b| == 1 ==> Legs(b) == b[0].attemptedLegs
    ensures |b| == 1 && b[0].observed.Some? ==> Observed(b) == b[0].observed.value
  {
    if b == [] {
      assert a + b == a;
    } else {
      TotalsAreSums(a, b[..|b| - 1]);
      assert (a + b)[..|a + b| - 1] == a + b[..|b| - 1];
    }
  }

  // ----- The settled amount -----

  const SETTLEMENT_SLACK := 0.000000001
  const AUXILIARY_LIMIT := 0.002

  function Spent(calls: seq<Call>): real {
    if calls == [] then 0.0 else Spent(calls[..|calls| - 1]) + calls[|calls| - 1].spend
  }

  function Upstream(calls: seq<Call>): real {
    if calls == [] then 0.0 else Upstream(calls[..|calls| - 1]) + calls[|calls| - 1].upstream
  }

  /** The dearer of both accounts of every call. */
  function Dearest(calls: seq<Call>): real {
    if calls == [] then 0.0
    else Dearest(calls[..|calls| - 1]) + Max(calls[|calls| - 1].spend, calls[|calls| - 1].upstream)
  }

  function Requests(calls: seq<Call>): seq<string> {
    seq(|calls|, i requires 0 <= i < |calls| => calls[i].request)
  }

  /** The spend of both gateway keys, before the operation and now. */
  datatype Keys = Keys(processorBefore: real, processorNow: real, backendBefore: real, backendNow: real)

  /** The amount the operation is settled for, or nothing when the accounts do not agree. */
  function SettledFor(legs: int, sdk: real, calls: seq<Call>, keys: Keys, reserved: real): Option<real> {
    var delta := keys.processorNow - keys.processorBefore;
    var auxiliary := keys.backendNow - keys.backendBefore;
    var chat := Dearest(calls);
    if |calls| != legs || |Members(Requests(calls))| != |calls| then None
    else if keys.processorBefore < 0.0 || keys.processorNow < 0.0 || keys.backendBefore < 0.0 || keys.backendNow < 0.0
    then None
    else if exists i | 0 <= i < |calls| :: calls[i].spend < 0.0 || calls[i].upstream < 0.0 then None
    else if delta - Spent(calls) > SETTLEMENT_SLACK || Spent(calls) - delta > SETTLEMENT_SLACK then None
    else if chat < sdk || !(0.0 <= auxiliary <= AUXILIARY_LIMIT) || chat + auxiliary > reserved then None
    else Some(chat + auxiliary)
  }

  lemma {:induction false} DearestCovers(calls: seq<Call>)
    requires forall i | 0 <= i < |calls| :: calls[i].spend >= 0.0 && calls[i].upstream >= 0.0
    ensures Spent(calls) <= Dearest(calls) && Upstream(calls) <= Dearest(calls) <= Spent(calls) + Upstream(calls)
  {
    if calls != [] {
      DearestCovers(calls[..|calls| - 1]);
    }
  }

  /**
    A settlement is never below any account of the operation: what the SDK observed, what the gateway booked, what the
    provider billed, or what both keys were charged meanwhile, up to the slack; and it never exceeds what was reserved.
   */
  lemma SettlementCoversEveryAccount(legs: int, sdk: real, calls: seq<Call>, keys: Keys, reserved: real)
    requires SettledFor(legs, sdk, calls, keys, reserved).Some?
    ensures var cost := SettledFor(legs, sdk, calls, keys, reserved).value;
            && sdk <= cost && Spent(calls) <= cost && Upstream(calls) <= cost <= reserved
            && Upstream(calls) + (keys.backendNow - keys.backendBefore) <= cost
            && (keys.processorNow - keys.processorBefore) + (keys.backendNow - keys.backendBefore)
               <= cost + SETTLEMENT_SLACK
            && |calls| == legs && Distinct(Requests(calls))
  {
    hide Members, Distinct;
    DearestCovers(calls);
    MembersSize(Requests(calls));
  }

  /** Each call priced by one of its two accounts: the provider's where `upstream` says so. */
  function Priced(calls: seq<Call>, upstream: set<nat>): real {
    if calls == [] then 0.0
    else
      var n := |calls| - 1;
      Priced(calls[..n], upstream) + if n in upstream then calls[n].upstream else calls[n].spend
  }

  lemma {:induction false} PricedWithin(calls: seq<Call>, upstream: set<nat>)
    ensures Priced(calls, upstream) <= Dearest(calls)
  {
    if calls != [] {
      PricedWithin(calls[..|calls| - 1], upstream);
    }
  }

  lemma {:induction false} DearestPricing(calls: seq<Call>) returns (upstream: set<nat>)
    ensures Priced(calls, upstream) == Dearest(calls) && forall i | i in upstream :: i < |calls|
  {
    upstream := {};
    if calls != [] {
      var n := |calls| - 1;
      upstream := DearestPricing(calls[..n]);
      if calls[n].upstream > calls[n].spend {
        SamePrices(calls[..n], upstream, upstream + {n});
        upstream := upstream + {n};
      }
    }
  }

  lemma {:induction false} SamePrices(calls: seq<Call>, a: set<nat>, b: set<nat>)
    requires forall i | 0 <= i < |calls| :: i in a <==> i in b
    ensures Priced(calls, a) == Priced(calls, b)
  {
    if calls != [] {
      SamePrices(calls[..|calls| - 1], a, b);
    }
  }

  /** The accounts of an operation, none of them below zero. */
  predicate AccountsOk(calls: seq<Call>, keys: Keys) {
    && keys.processorBefore >= 0.0 && keys.processorNow >= 0.0 && keys.backendBefore >= 0.0 && keys.backendNow >= 0.0
    && forall i | 0 <= i < |calls| :: calls[i].spend >= 0.0 && calls[i].upstream >= 0.0
  }

  /**
    Exactly when an operation is settled, and for how much: as many different requests as legs, no negative account, the
    gateway's bookings equal to what its key was charged up to a billionth, the SDK's own total covered, the auxiliary
    spend from zero to 0.002, and all of it within the reservation. It is the dearest that any choice between the two
    accounts of each call makes the operation, with the auxiliary spend.
   */
  lemma SettlementExactly(legs: int, sdk: real, calls: seq<Call>, keys: Keys, reserved: real)
    ensures var auxiliary := keys.backendNow - keys.backendBefore;
            var charged := keys.processorNow - keys.processorBefore;
            && (SettledFor(legs, sdk, calls, keys, reserved).Some?
                <==> && |calls| == legs && Distinct(Requests(calls)) && AccountsOk(calls, keys)
                     && -0.000000001 <= charged - Spent(calls) <= 0.000000001
                     && 0.0 <= auxiliary <= 0.002
                     && (exists choice :: Priced(calls, choice) >= sdk)
                     && (forall choice :: Priced(calls, choice) + auxiliary <= reserved))
            && (SettledFor(legs, sdk, calls, keys, reserved).Some? ==>
                  var cost := SettledFor(legs, sdk, calls, keys, reserved).value;
                  && (forall choice :: Priced(calls, choice) + auxiliary <= cost)
                  && (exists choice :: Priced(calls, choice) + auxiliary == cost))
  {
    hide Members, Distinct;
    MembersSize(Requests(calls));
    forall choice
      ensures Priced(calls, choice) <= Dearest(calls)
    {
      PricedWithin(calls, choice);
    }
    var dearest := DearestPricing(calls);
    assert Priced(calls, dearest) == Dearest(calls);
  }

  /** Taking each call's booking is Spent; taking each call's bill is Upstream. */
  lemma {:induction false} PricedAlike(calls: seq<Call>, upstream: set<nat>)
    ensures upstream == {} ==> Priced(calls, upstream) == Spent(calls)
    ensures (forall i | 0 <= i < |calls| :: i in upstream) ==> Priced(calls, upstream) == Upstream(calls)
  {
    if calls != [] {
      PricedAlike(calls[..|calls| - 1], upstream);
    }
  }
}
