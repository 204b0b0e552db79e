/** The audit of the ledger before a covered admission (tools/chat-eval-covered-step.py). */
module Coverage {
  import opened Outcomes
  import opened Budget
  import opened Ledger
  import opened Campaign
  import opened CampaignSteps
  import opened CampaignRuns
  import opened HonestService
  import Whitespace

  datatype Plan = Plan(digest: string, samples: seq<string>)

  predicate IsChat(row: Row) {
    row.operation.Some? && row.operation.value != ""
  }

  function Chat(rows: Table): Table {
    if rows == [] then []
    else Chat(rows[..|rows| - 1]) + if IsChat(rows[|rows| - 1]) then [rows[|rows| - 1]] else []
  }

  /** The cost of an operation is known, or its entire maximum is still held. */
  predicate Resolved(row: Row) {
    match row.reservation.state
    case Settled => true
    case Retained => row.operation.Some? && RetainedCost(row.reservation, row.operation.value, None)
    case Untouched => false
  }

  function Identities(plans: seq<Plan>): map<string, seq<string>> {
    if plans == [] then map[]
    else Identities(plans[..|plans| - 1])[plans[|plans| - 1].digest := plans[|plans| - 1].samples]
  }

  ghost predicate PlansAccepted(plans: seq<Plan>) {
    && (forall i, j | 0 <= i < j < |plans| :: plans[i].digest != plans[j].digest)
    && (forall i | 0 <= i < |plans| :: plans[i].samples != [] && Distinct(plans[i].samples))
  }

  /** Every chat row belongs to a campaign, has its own operation and is resolved. */
  ghost predicate ChatAccepted(chat: Table, ids: map<string, seq<string>>) {
    && (forall i | 0 <= i < |chat| :: chat[i].plan in ids && Resolved(chat[i]))
    && (forall i, j | 0 <= i < j < |chat| :: chat[i].operation != chat[j].operation)
  }

  /** The whole audit: resolved chat rows that form, campaign by campaign, a prefix of its samples. */
  ghost predicate Accepted(rows: Table, ids: map<string, seq<string>>) {
    && ChatAccepted(Chat(rows), ids)
    && forall plan | plan in ids :: PlanSamples(Chat(rows), plan) <= ids[plan]
  }

  lemma {:induction false} IdentitiesKeys(plans: seq<Plan>, digest: string)
    ensures digest in Identities(plans) <==> exists i | 0 <= i < |plans| :: plans[i].digest == digest
  {
    if plans != [] {
      var front := plans[..|plans| - 1];
      IdentitiesKeys(front, digest);
      if i :| 0 <= i < |plans| && plans[i].digest == digest {
        assert i < |front| ==> front[i].digest == digest;
      }
    }
  }

  /** Each registered campaign keeps its own samples. */
  lemma {:induction false} IdentitiesExactly(plans: seq<Plan>, i: nat)
    requires i < |plans| && forall j, k | 0 <= j < k < |plans| :: plans[j].digest != plans[k].digest
    ensures plans[i].digest in Identities(plans) && Identities(plans)[plans[i].digest] == plans[i].samples
  {
    if i < |plans| - 1 {
      IdentitiesExactly(plans[..|plans| - 1], i);
    }
  }

  /** The chat rows of a history in ledger order: each row with an operation, once. */
  lemma {:induction false} ChatInOrder(a: Table, b: Table)
    ensures Chat(a + b) == Chat(a) + Chat(b)
    ensures |b| == 1 ==> Chat(b) == if b[0].operation.Some? && |b[0].operation.value| > 0 then b else []
  {
    if b == [] {
      assert a + b == a;
    } else {
      ChatInOrder(a, b[..|b| - 1]);
      assert (a + b)[..|a + b| - 1] == a + b[..|b| - 1];
      assert |b| == 1 ==> b == [b[0]];
    }
  }

  /** A proof that a terminal operation still holds its whole reservation. */
  predicate Proves(proof: Proof, state: Terminal, operation: string) {
    && proof.state == state && proof.operation == operation && |proof.digest| == 64
    && forall c | c in proof.digest :: c in "0123456789abcdef"
  }

  /** Resolved is settled, or retained at the entire maximum with one proof, of this very operation. */
  lemma ResolvedExactly(row: Row)
    ensures var r := row.reservation;
            Resolved(row)
            <==> || r.state == CostState.Settled
                 || (&& r.state == CostState.Retained && r.reserved > 0.0 && r.maximum == Some(r.reserved)
                     && row.operation.Some?
                     && (|| (r.failure.None? && r.completed.Some?
                             && Proves(r.completed.value, Completed, row.operation.value))
                         || (r.completed.None? && r.failure.Some?
                             && Proves(r.failure.value, Failed, row.operation.value))))
  {
    HexDigits();
  }

  lemma HexDigits()
    ensures forall c: char :: c in "0123456789abcdef" <==> '0' <= c <= '9' || 'a' <= c <= 'f'
  {
    var digits := "0123456789abcdef";
    forall c: char | '0' <= c <= '9' || 'a' <= c <= 'f'
      ensures c in digits
    {
      var i := if c <= '9' then c as int - '0' as int else c as int - 'a' as int + 10;
      assert digits[i] == c;
    }
  }

  method DuplicateFree(samples: seq<string>) returns (ok: bool)
    ensures ok <==> Distinct(samples)
  {
    var seen: set<string> := {};
    for i := 0 to |samples|
      invariant seen == set k | 0 <= k < i :: samples[k]
      invariant forall j, k | 0 <= j < k < i :: samples[j] != samples[k]
    {
      if samples[i] in seen {
        return false;
      }
      seen := seen + {samples[i]};
    }
    return true;
  }

  method Register(plans: seq<Plan>) returns (ids: Option<map<string, seq<string>>>)
    ensures ids.Some? <==> PlansAccepted(plans)
    ensures ids.Some? ==> ids.value == Identities(plans)
  {
    var identities: map<string, seq<string>> := map[];
    for i := 0 to |plans|
      invariant identities == Identities(plans[..i])
      invariant PlansAccepted(plans[..i])
    {
      IdentitiesKeys(plans[..i], plans[i].digest);
      var distinct := DuplicateFree(plans[i].samples);
      if plans[i].digest in identities || plans[i].samples == [] || !distinct {
        return None;
      }
      assert plans[..i + 1][..i] == plans[..i];
      identities := identities[plans[i].digest := plans[i].samples];
    }
    assert plans[..|plans|] == plans;
    return Some(identities);
  }

  /** The ordered samples of each campaign among the chat rows, or None as soon as one row is not acceptable. */
  method CollectSeen(chat: Table, ids: map<string, seq<string>>) returns (seen: Option<map<string, seq<string>>>)
    ensures seen.Some? <==> ChatAccepted(chat, ids)
    ensures seen.Some? ==> seen.value.Keys == ids.Keys
    ensures seen.Some? ==> forall plan | plan in ids :: seen.value[plan] == PlanSamples(chat, plan)
  {
    hide PlanSamples, Resolved;
    NoSamples(chat);
    var found := map plan | plan in ids :: [];
    var operations: set<Option<string>> := {};
    for i := 0 to |chat|
      invariant found.Keys == ids.Keys
      invariant forall plan | plan in ids :: found[plan] == PlanSamples(chat[..i], plan)
      invariant operations == set k | 0 <= k < i :: chat[k].operation
      invariant forall k | 0 <= k < i :: chat[k].plan in ids && Resolved(chat[k])
      invariant forall j, k | 0 <= j < k < i :: chat[j].operation != chat[k].operation
    {
      var row := chat[i];
      NextSample(chat, i);
      if row.plan !in ids || row.operation in operations {
        return None;
      }
      operations := operations + {row.operation};
      found := found[row.plan := found[row.plan] + [row.sample]];
      if !Resolved(row) {
        return None;
      }
    }
    assert chat[..|chat|] == chat;
    return Some(found);
  }

  lemma NoSamples(chat: Table)
    ensures forall plan: string :: PlanSamples(chat[..0], plan) == []
  {
    assert chat[..0] == [];
  }

  lemma NextSample(chat: Table, i: nat)
    requires i < |chat|
    ensures forall plan: string :: PlanSamples(chat[..i + 1], plan) ==
                           PlanSamples(chat[..i], plan) + if chat[i].plan == plan then [chat[i].sample] else []
  {
    assert chat[..i + 1][..i] == chat[..i];
  }

  method CampaignPrefix(rows: Table, plans: seq<Plan>) returns (chat: Option<Table>)
    ensures chat.Some? <==> PlansAccepted(plans) && Accepted(rows, Identities(plans))
    ensures chat.Some? ==> chat.value == Chat(rows)
  {
    var ids := Register(plans);
    if ids.None? {
      return None;
    }
    var talk: Table := [];
    for i := 0 to |rows|
      invariant talk == Chat(rows[..i])
    {
      assert rows[..i + 1][..i] == rows[..i];
      if IsChat(rows[i]) {
        talk := talk + [rows[i]];
      }
    }
    assert rows[..|rows|] == rows;
    var seen := CollectSeen(talk, ids.value);
    if seen.None? {
      return None;
    }
    var digests := seen.value.Keys;
    while digests != {}
      invariant digests <= ids.value.Keys
      invariant forall plan | plan in ids.value && plan !in digests :: PlanSamples(talk, plan) <= ids.value[plan]
      decreases |digests|
    {
      var plan :| plan in digests;
      if !(seen.value[plan] <= ids.value[plan]) {
        return None;
      }
      digests := digests - {plan};
    }
    return Some(talk);
  }

  // ----- What the runners leave behind passes it -----

  lemma {:induction false} ChatMembers(rows: Table, row: Row)
    ensures row in Chat(rows) <==> row in rows && IsChat(row)
  {
    if rows != [] {
      ChatMembers(rows[..|rows| - 1], row);
      assert rows == rows[..|rows| - 1] + [rows[|rows| - 1]];
    }
  }

  lemma {:induction false} ChatOperationsDistinct(rows: Table)
    requires forall i, j | 0 <= i < j < |rows| && rows[i].operation.Some? :: rows[i].operation != rows[j].operation
    ensures forall i, j | 0 <= i < j < |Chat(rows)| :: Chat(rows)[i].operation != Chat(rows)[j].operation
  {
    if rows != [] {
      var front, last := rows[..|rows| - 1], rows[|rows| - 1];
      ChatOperationsDistinct(front);
      forall k | 0 <= k < |Chat(front)|
        ensures Chat(front)[k].operation != last.operation
      {
        ChatMembers(front, Chat(front)[k]);
        var i :| 0 <= i < |front| && front[i] == Chat(front)[k];
        assert rows[i].operation.Some?;
      }
    }
  }

  lemma {:induction false} ChatSamplesArePrefix(rows: Table, plan: string)
    requires forall i, j | 0 <= i < j < |rows| && rows[i].plan == plan && rows[j].plan == plan :: IsChat(rows[i])
    ensures PlanSamples(Chat(rows), plan) <= PlanSamples(rows, plan)
    ensures (forall row | row in rows && row.plan == plan :: IsChat(row)) ==>
              PlanSamples(Chat(rows), plan) == PlanSamples(rows, plan)
  {
    if rows != [] {
      var front, last := rows[..|rows| - 1], rows[|rows| - 1];
      ChatSamplesArePrefix(front, plan);
      if IsChat(last) {
        assert Chat(rows)[..|Chat(rows)| - 1] == Chat(front);
        assert PlanSamples(Chat(rows), plan)
            == PlanSamples(Chat(front), plan) + if last.plan == plan then [last.sample] else [];
      } else {
        assert Chat(rows) == Chat(front);
      }
      assert forall row | row in front :: row in rows;
      assert last in rows;
      if last.plan == plan {
        forall row | row in front && row.plan == plan
          ensures IsChat(row)
        {
          var i :| 0 <= i < |front| && front[i] == row;
          assert rows[i] == row;
        }
      }
    }
  }

  /** No observed operation still waits for its cost. */
  ghost predicate NoneWaits(rows: Table) {
    forall row | row in rows && row.operation.Some? :: row.reservation.state != Untouched
  }

  /** The audit of a table whose campaigns are prefixes with at most their last row unsettled. */
  lemma AuditOfPrefixes(rows: Table, plans: map<string, seq<string>>)
    requires PrefixOk(plans, rows) && forall i | 0 <= i < |rows| :: RowOk(rows[i])
    requires forall i, j | 0 <= i < j < |rows| && rows[i].operation.Some? :: rows[i].operation != rows[j].operation
    ensures Accepted(rows, plans) <==> NoneWaits(rows)
  {
    if NoneWaits(rows) {
      forall k | 0 <= k < |Chat(rows)|
        ensures Chat(rows)[k].plan in plans && Resolved(Chat(rows)[k])
      {
        ChatMembers(rows, Chat(rows)[k]);
      }
      ChatOperationsDistinct(rows);
      forall plan | plan in plans
        ensures PlanSamples(Chat(rows), plan) <= plans[plan]
      {
        ChatSamplesArePrefix(rows, plan);
      }
    } else {
      var row :| row in rows && row.operation.Some? && row.reservation.state == Untouched;
      ChatMembers(rows, row);
    }
  }

  lemma MintedOperationsDistinct(s: Sys)
    requires Inv(s) && HonestInv(s)
    ensures forall i, j | 0 <= i < j < |s.rows| && s.rows[i].operation.Some? ::
              s.rows[i].operation != s.rows[j].operation
  {
    forall i, j | 0 <= i < j < |s.rows| && s.rows[i].operation.Some?
      ensures s.rows[i].operation != s.rows[j].operation
    {
      assert OperationOk(s, s.rows[i]) && OperationOk(s, s.rows[j]);
    }
  }

  /**
    Exactly when the audit accepts the history of a run with an honest service: when no observed operation is still
    waiting for its cost. Order, campaigns, operation identities and retained maxima are never the reason to refuse.
   */
  lemma HistoryAccepted(plans: Plans, actions: seq<Action>)
    requires HonestRun(Init(plans), actions)
    ensures var rows := Exec(Init(plans), actions).rows;
            Accepted(rows, plans) <==> NoneWaits(rows)
  {
    HonestRunKeeps(Init(plans), actions);
    PlansNeverChange(Init(plans), actions);
    MintedOperationsDistinct(Exec(Init(plans), actions));
    AuditOfPrefixes(Exec(Init(plans), actions).rows, plans);
  }

  /**
    Whenever a process of the only campaign is at `preflight`, in any run: the audit accepts the history it faces if and
    only if no rival has reserved its sample meanwhile, or none of the rival's operations waits for its cost.
   */
  lemma LoneCampaignAtPreflight(plan: string, samples: seq<string>, actions: seq<Action>, p: nat)
    requires Distinct(samples) && HonestRun(Init(map[plan := samples]), actions)
    requires PcOf(Exec(Init(map[plan := samples]), actions), p).Preflighting?
    ensures var s := Exec(Init(map[plan := samples]), actions);
            Accepted(s.rows, map[plan := samples]) <==>
            !HasSample(s.rows, plan, PcOf(s, p).sample) || NoneWaits(s.rows)
  {
    var plans := map[plan := samples];
    HistoryAccepted(plans, actions);
    PreflightPrefixExactly(plans, actions, p);
    RunKeeps(Init(plans), actions);
    PlansNeverChange(Init(plans), actions);
    var s := Exec(Init(plans), actions);
    hide Exec, Accepted, HasSample;
    OnlyPlannedObserved(s);
    hide Inv;
  }

  lemma OnlyPlannedObserved(s: Sys)
    requires Inv(s)
    ensures forall row | row in s.rows && row.operation.Some? :: row.plan in s.plans
  {
    InvParts(s);
    hide Inv;
    forall row | row in s.rows && row.operation.Some?
      ensures row.plan in s.plans
    {
      var i :| 0 <= i < |s.rows| && s.rows[i] == row;
      assert RowOk(s.rows[i]);
    }
  }

  /** With a single campaign, a scan that goes on to `preflight` has always just read an acceptable history. */
  lemma LoneCampaignPassesPreflight(plan: string, samples: seq<string>, actions: seq<Action>, p: nat, disk: Disk)
    requires Distinct(samples) && HonestRun(Init(map[plan := samples]), actions)
    requires var s := Exec(Init(map[plan := samples]), actions);
             PcOf(s, p) == Idle && PcOf(Do(s, Scan(p, plan, disk)), p).Preflighting?
    ensures Accepted(Exec(Init(map[plan := samples]), actions).rows, map[plan := samples])
  {
    hide Do, Exec, Honest, Accepted;
    var plans := map[plan := samples];
    HistoryAccepted(plans, actions);
    PreflightSeesSettledPrefix(plans, actions, p, plan, disk);
    RunKeeps(Init(plans), actions);
    PlansNeverChange(Init(plans), actions);
  }

  // ----- Two runners of one campaign -----

  const RIVAL_PLAN := map["plan" := ["case"]]
  const RIVAL_SNAPSHOT := Snapshot(0.0, SCOPE, "evidence", 1.0, None)
  const RIVAL_HOLD := Reservation(0.5, None, "evidence", 1.0, Untouched, None, None)
  const RIVAL_ROW := Row("request", "plan", "case", RIVAL_HOLD, Reserved, None, None)
  const RIVAL_SEEN :=
    RIVAL_ROW.(conversation := Some("conversation"), state := Observing, operation := Some("operation"))

  function RivalOpening(): seq<Action> {
    [Scan(0, "plan", map[]), Scan(1, "plan", map[]), Action.Reserve(0, "request", RIVAL_SNAPSHOT, 0.5, 1.0, None)]
  }

  function RivalDispatch(): seq<Action> {
    [Attach(0, "conversation"), Dispatch(0)]
  }

  function RivalSend(): seq<Action> {
    [Send(0, "operation", 0.25), Observed(0)]
  }

  /** Both runners decided to pay for the case; only the first has reserved it. */
  function RivalReserved(): Sys {
    Sys(RIVAL_PLAN, [RIVAL_ROW], map[0 := Attaching("request"), 1 := Preflighting("plan", "case")],
        [], map[], map[], 0.0, CAP)
  }

  /** The first runner has committed DISPATCHING. */
  function RivalDispatching(): Sys {
    RivalReserved().(rows := [RIVAL_ROW.(conversation := Some("conversation"), state := Dispatching)],
                     pcs := map[0 := Sending("request"), 1 := Preflighting("plan", "case")])
  }

  lemma ExecFirst(s: Sys, a: Action, rest: seq<Action>)
    ensures Exec(s, [a] + rest) == Exec(Do(s, a), rest)
    ensures Honest(s, a) && HonestRun(Do(s, a), rest) ==> HonestRun(s, [a] + rest)
  {
    assert ([a] + rest)[1..] == rest;
  }

  lemma RivalReserves()
    ensures ReserveTx([], "request", "plan", "case", RIVAL_SNAPSHOT, 0.5, 1.0, None) == Some([RIVAL_ROW])
  {
    assert !IsBlank("request") by {
      assert "request"[0] == 'r' && !Whitespace.IsSpace('r');
      assert "request"[0] in "request";
    }
    var rows: Table := [];
    assert Held(rows) == [] && Requests(rows) == {};
    assert Outstanding([]) == 0.0 && AllMoney([]);
    assert Admit(RIVAL_SNAPSHOT, {}, [], "request", 0.5, 1.0, None) == Admitted(RIVAL_ROW.reservation);
    assert rows + [RIVAL_ROW] == [RIVAL_ROW];
  }

  lemma RivalOpens()
    ensures Exec(Init(RIVAL_PLAN), RivalOpening()) == RivalReserved() && HonestRun(Init(RIVAL_PLAN), RivalOpening())
  {
    var s0, acts := Init(RIVAL_PLAN), RivalOpening();
    var s1 := Do(s0, acts[0]);
    var s2 := Do(s1, acts[1]);
    RivalReserves();
    hide ReserveTx;
    assert s2.pcs == map[0 := Preflighting("plan", "case"), 1 := Preflighting("plan", "case")];
    var s3 := Do(s2, acts[2]);
    assert s3.rows == [RIVAL_ROW];
    assert s3.pcs == map[0 := Attaching("request"), 1 := Preflighting("plan", "case")];
    ExecFirst(s2, acts[2], []);
    ExecFirst(s1, acts[1], acts[2..]);
    ExecFirst(s0, acts[0], acts[1..]);
    assert acts[2..] == [acts[2]] + [] && acts[1..] == [acts[1]] + acts[2..] && acts == [acts[0]] + acts[1..];
  }

  lemma RivalDispatches()
    ensures Exec(RivalReserved(), RivalDispatch()) == RivalDispatching() && HonestRun(RivalReserved(), RivalDispatch())
  {
    var s3, acts := RivalReserved(), RivalDispatch();
    var s4 := Do(s3, acts[0]);
    assert s4.rows == [RIVAL_ROW.(conversation := Some("conversation"))];
    assert s4.pcs == map[0 := Launching("request"), 1 := Preflighting("plan", "case")];
    var s5 := Do(s4, acts[1]);
    assert s5.pcs == RivalDispatching().pcs;
    ExecFirst(s4, acts[1], []);
    ExecFirst(s3, acts[0], acts[1..]);
    assert acts[1..] == [acts[1]] + [] && acts == [acts[0]] + acts[1..];
  }

  /** The first runner has its answer. */
  function RivalHandling(): Sys {
    var s := Sent(RivalDispatching(), "request", "operation", 0.25);
    s.(pcs := map[0 := Handling("request", "operation"), 1 := Preflighting("plan", "case")])
  }

  lemma RivalAnswered()
    ensures Do(RivalDispatching(), Send(0, "operation", 0.25)) == RivalHandling()
    ensures Honest(RivalDispatching(), Send(0, "operation", 0.25))
  {
    var t := Do(RivalDispatching(), Send(0, "operation", 0.25));
    assert t.pcs == RivalHandling().pcs;
  }

  lemma RivalObserves()
    ensures var s := Do(RivalHandling(), Observed(0));
            && PcOf(s, 1) == Preflighting("plan", "case")
            && s.rows == [RIVAL_SEEN]
    ensures Honest(RivalHandling(), Observed(0))
  {
  }

  lemma RivalSends()
    ensures var s := Exec(RivalDispatching(), RivalSend());
            && PcOf(s, 1) == Preflighting("plan", "case")
            && s.rows == [RIVAL_SEEN]
    ensures HonestRun(RivalDispatching(), RivalSend())
  {
    var s5, acts := RivalDispatching(), RivalSend();
    var s6 := RivalHandling();
    RivalAnswered();
    RivalObserves();
    hide Do, Honest, RivalHandling, RivalDispatching;
    ExecFirst(s6, acts[1], []);
    ExecFirst(s5, acts[0], acts[1..]);
    assert acts[1..] == [acts[1]] + [] && acts == [acts[0]] + acts[1..];
  }

  lemma {:induction false} ExecAppend(s: Sys, first: seq<Action>, rest: seq<Action>)
    ensures Exec(s, first + rest) == Exec(Exec(s, first), rest)
    ensures HonestRun(s, first) && HonestRun(Exec(s, first), rest) ==> HonestRun(s, first + rest)
    decreases |first|
  {
    hide Do, Honest;
    if first == [] {
      assert first + rest == rest;
    } else {
      ExecAppend(Do(s, first[0]), first[1..], rest);
      assert (first + rest)[1..] == first[1..] + rest;
    }
  }

  /**
    The reading must be its own: a second runner that scanned before the first one dispatched still goes to `preflight`,
    and by then the audit refuses, because the rival's operation is observed and not yet settled.
   */
  lemma RivalMakesPreflightRefuse()
    ensures var actions := RivalOpening() + RivalDispatch() + RivalSend();
            var s := Exec(Init(RIVAL_PLAN), actions);
            && HonestRun(Init(RIVAL_PLAN), actions)
            && PcOf(s, 1) == Preflighting("plan", "case") && !Accepted(s.rows, RIVAL_PLAN)
  {
    RivalOpens();
    RivalDispatches();
    RivalSends();
    ExecAppend(Init(RIVAL_PLAN), RivalOpening(), RivalDispatch());
    ExecAppend(Init(RIVAL_PLAN), RivalOpening() + RivalDispatch(), RivalSend());
    var s := Exec(Init(RIVAL_PLAN), RivalOpening() + RivalDispatch() + RivalSend());
    ChatMembers(s.rows, s.rows[0]);
  }
}
