/**
  The durable `attempts` table (tools/chat-eval-ledger.py). Each transaction is a function from the table to the table
  it commits, or None when it raises and leaves the table as it was; the class below executes them.
 */
module Ledger {
  import opened Outcomes
  import opened Budget

  datatype RowState = Reserved | Dispatching | Observing

  datatype Row = Row(
    request: string, plan: string, sample: string, reservation: Reservation,
    state: RowState, conversation: Option<string>, operation: Option<string>)

  type Table = seq<Row>

  function Requests(rows: Table): set<string> {
    set i | 0 <= i < |rows| :: rows[i].request
  }

  function Held(rows: Table): (held: seq<Reservation>)
    ensures |held| == |rows|
  {
    seq(|rows|, i requires 0 <= i < |rows| => rows[i].reservation)
  }

  /** `SELECT ... WHERE request_id=?`: the primary key makes the row unique. */
  function Locate(rows: Table, request: string): (r: Option<nat>)
    ensures r.Some? ==> r.value < |rows| && rows[r.value].request == request
    ensures r.None? ==> forall i | 0 <= i < |rows| :: rows[i].request != request
  {
    if rows == [] then None
    else if rows[|rows| - 1].request == request then Some(|rows| - 1)
    else Locate(rows[..|rows| - 1], request)
  }

  predicate HasSample(rows: Table, plan: string, sample: string) {
    exists i | 0 <= i < |rows| :: rows[i].plan == plan && rows[i].sample == sample
  }

  // ----- Transactions -----

  function ReserveTx(rows: Table, request: string, plan: string, sample: string, snapshot: Snapshot,
                     bound: real, now: real, authorized: Option<real>): Option<Table>
  {
    if plan == "" || sample == "" || HasSample(rows, plan, sample) then None
    else
      match Admit(snapshot, Requests(rows), Held(rows), request, bound, now, authorized)
      case Refused(_) => None
      case Admitted(reservation) => Some(rows + [Row(request, plan, sample, reservation, Reserved, None, None)])
  }

  function AttachTx(rows: Table, request: string, conversation: string): Option<Table> {
    var at := Locate(rows, request);
    if conversation == "" || at.None? then None
    else
      var row := rows[at.value];
      if row.state != Reserved || row.conversation.Some? then None
      else Some(rows[at.value := row.(conversation := Some(conversation))])
  }

  function DispatchTx(rows: Table, request: string): Option<Table> {
    var at := Locate(rows, request);
    if at.None? then None
    else
      var row := rows[at.value];
      if row.state != Reserved || row.conversation.None? then None
      else Some(rows[at.value := row.(state := Dispatching)])
  }

  function ObserveTx(rows: Table, request: string, operation: string): Option<Table> {
    var at := Locate(rows, request);
    if operation == "" || at.None? then None
    else
      var row := rows[at.value];
      if row.state == Reserved || (row.operation.Some? && row.operation != Some(operation)) then None
      else Some(rows[at.value := row.(state := Observing, operation := Some(operation))])
  }

  // A public receipt. Parsed JSON is its canonical text, in which equal values have equal texts.

  type Document = string

  /** `operation` .. `history` are entries of the collected resources, whose own canonical text is `text`. */
  datatype Resources = Resources(
    operation: Document, operationAfter: Document, result: Document, history: Option<Document>, text: Document)

  /** `checks` are the verifications recorded as true; `content` is the text in the result, when it is an object. */
  datatype PublicReceipt = PublicReceipt(
    operationId: string, state: Option<Terminal>, operation: Document, conversation: Option<string>,
    collection: string, checks: set<string>, supplement: bool,
    result: Document, content: Option<string>, history: Option<Document>,
    resources: Option<Resources>, resourcesDigest: string, text: Document)

  const VERIFIED := "VERIFIED_PUBLIC_SNAPSHOT"

  predicate FailureProved(r: PublicReceipt) {
    && r.state == Some(Failed) && r.collection == VERIFIED
    && {"input_matches_bank", "stable_snapshot"} <= r.checks && r.supplement
  }

  /** The answer is not blank and the resources are the very snapshot the receipt shows, with their own digest. */
  predicate CompletionProved(r: PublicReceipt, sha256: Document -> string) {
    && r.state == Some(Completed) && r.collection == VERIFIED
    && {"input_matches_bank", "stable_snapshot", "public_history_parity", "citation_ids_known"} <= r.checks
    && r.content.Some? && !IsBlank(r.content.value)
    && r.resources.Some?
    && r.resources.value.operation == r.operation && r.resources.value.operationAfter == r.operation
    && r.resources.value.result == r.result
    && r.resources.value.history == r.history && r.history.Some?
    && sha256(r.resources.value.text) == r.resourcesDigest
  }

  /** What `_retain_unknown_cost` is given once the receipt has passed its checks. */
  function Proved(r: PublicReceipt, state: Terminal, sha256: Document -> string): Receipt {
    Receipt(r.operationId, state, r.conversation, true, sha256(r.text))
  }

  /** retain_failed_cost and retain_completed_cost share this update; they differ in the proof they record. */
  function RetainTx(rows: Table, request: string, receipt: Receipt): Option<Table> {
    var at := Locate(rows, request);
    if receipt.state == Cancelled || !receipt.verified || at.None? then None
    else
      var row := rows[at.value];
      if row.state != Observing || row.operation != Some(receipt.operation) || row.conversation != receipt.conversation
         || row.reservation.state != Untouched then None
      else
        var proof := Proof(receipt.operation, receipt.state, receipt.digest);
        var held := row.reservation.(state := Retained, maximum := Some(row.reservation.reserved));
        var kept := if receipt.state == Failed then held.(failure := Some(proof)) else held.(completed := Some(proof));
        Some(rows[at.value := row.(reservation := kept)])
  }

  function Settle(r: Reservation, cost: real): Reservation {
    r.(maximum := Some(r.reserved), reserved := cost, state := Settled)
  }

  /** What an operation is charged once everything is reported: the cost of every attempt plus the auxiliary cost. */
  ghost function Charged(operation: Operation, reports: seq<Report>, auxiliary: real): Option<real> {
    if FullyReported(operation, reports) && auxiliary >= 0.0 then Some(ReportedCost(reports) + auxiliary) else None
  }

  function ReconcileTx(rows: Table, request: string, operation: string, cost: real): Option<Table> {
    var at := Locate(rows, request);
    if cost < 0.0 || at.None? then None
    else
      var row := rows[at.value];
      if row.state != Observing || row.operation != Some(operation) || cost > row.reservation.reserved then None
      else Some(rows[at.value := row.(reservation := Settle(row.reservation, cost))])
  }

  /**
    The compare-and-swap of tools/chat-eval-recover-failed-runtime.py: `entry` was read earlier, as the only pending
    operation, and the update applies only while the row is still exactly that entry.
   */
  function SwapTx(rows: Table, entry: Row, cost: real): Option<Table> {
    var at := Locate(rows, entry.request);
    if cost < 0.0 || entry.operation.None? || entry.reservation.state != Untouched then None
    else if at.None? || rows[at.value] != entry || cost > entry.reservation.reserved then None
    else Some(rows[at.value := entry.(reservation := Settle(entry.reservation, cost))])
  }

  // ----- What the table always satisfies -----

  ghost predicate Keyed(rows: Table) {
    && (forall i, j | 0 <= i < j < |rows| :: rows[i].request != rows[j].request)
    && (forall i, j | 0 <= i < j < |rows| :: !(rows[i].plan == rows[j].plan && rows[i].sample == rows[j].sample))
  }

  predicate RowOk(row: Row) {
    var r := row.reservation;
    && r.reserved >= 0.0
    && (row.state == Observing <==> row.operation.Some?)
    && (row.operation.Some? ==> row.operation.value != "")
    && (row.state != Reserved ==> row.conversation.Some?)
    && (r.state == Untouched ==> r.reserved > 0.0 && r.failure.None? && r.completed.None?)
    && (r.state != Untouched ==> row.state == Observing)
    && (r.state == Retained ==> row.operation.Some? && RetainedCost(r, row.operation.value, None))
  }

  ghost predicate Sound(rows: Table) {
    Keyed(rows) && forall i | 0 <= i < |rows| :: RowOk(rows[i])
  }

  function Rank(state: RowState): nat {
    match state case Reserved => 0 case Dispatching => 1 case Observing => 2
  }

  /** What one row may become, in one transaction or in any number of them. */
  predicate Evolves(a: Row, b: Row) {
    && a.request == b.request && a.plan == b.plan && a.sample == b.sample
    && Rank(a.state) <= Rank(b.state)
    && (a.conversation.Some? ==> b.conversation == a.conversation)
    && (a.operation.Some? ==> b.operation == a.operation)
    && (a.reservation.state != Untouched ==> b.reservation.state != Untouched)
    && (b.reservation.state == Untouched ==> b.reservation == a.reservation)
    && b.reservation.reserved <= a.reservation.reserved
  }

  ghost predicate TableEvolves(a: Table, b: Table) {
    |a| <= |b| && forall i {:trigger Evolves(a[i], b[i])} | 0 <= i < |a| :: Evolves(a[i], b[i])
  }

  /** One committed update of one existing row. */
  ghost predicate Updates(a: Table, b: Table, at: nat) {
    && at < |a| == |b| && b == a[at := b[at]] && Evolves(a[at], b[at]) && RowOk(b[at])
    && Rank(b[at].state) <= Rank(a[at].state) + 1
  }

  lemma UpdateKeeps(a: Table, b: Table, at: nat)
    requires Sound(a) && Updates(a, b, at)
    ensures Sound(b) && TableEvolves(a, b)
    ensures Outstanding(Held(b)) == Outstanding(Held(a)) - a[at].reservation.reserved + b[at].reservation.reserved
    ensures Outstanding(Held(b)) <= Outstanding(Held(a))
  {
    OutstandingUpdate(Held(a), at, b[at].reservation);
    assert Held(b) == Held(a)[at := b[at].reservation];
  }

  lemma ReserveKeeps(rows: Table, request: string, plan: string, sample: string, snapshot: Snapshot,
                     bound: real, now: real, authorized: Option<real>)
    requires Sound(rows)
    requires ReserveTx(rows, request, plan, sample, snapshot, bound, now, authorized).Some?
    ensures var after := ReserveTx(rows, request, plan, sample, snapshot, bound, now, authorized).value;
            && Sound(after) && TableEvolves(rows, after) && |after| == |rows| + 1 && after[..|rows|] == rows
            && after[|rows|].request !in Requests(rows) && !HasSample(rows, plan, sample)
            && Outstanding(Held(after)) == Outstanding(Held(rows)) + bound
            && AdmissionCap(authorized).Some?
            && HISTORICAL_FLOOR + Outstanding(Held(after)) <= AdmissionCap(authorized).value <= MAX_AUTHORIZED_CAP
  {
    hide Admit;
    var after := ReserveTx(rows, request, plan, sample, snapshot, bound, now, authorized).value;
    var last := after[|rows|].reservation;
    AdmissionWithinCap(snapshot, Requests(rows), Held(rows), request, bound, now, authorized);
    OutstandingAppend(Held(rows), last);
    assert Held(after) == Held(rows) + [last];
    forall i | 0 <= i < |rows|
      ensures rows[i].request != request
    {
      assert rows[i].request in Requests(rows);
    }
  }

  lemma AttachUpdates(rows: Table, request: string, conversation: string)
    requires Sound(rows) && AttachTx(rows, request, conversation).Some?
    ensures Updates(rows, AttachTx(rows, request, conversation).value, Locate(rows, request).value)
  {
  }

  lemma DispatchUpdates(rows: Table, request: string)
    requires Sound(rows) && DispatchTx(rows, request).Some?
    ensures Updates(rows, DispatchTx(rows, request).value, Locate(rows, request).value)
  {
  }

  lemma ObserveUpdates(rows: Table, request: string, operation: string)
    requires Sound(rows) && ObserveTx(rows, request, operation).Some?
    ensures Updates(rows, ObserveTx(rows, request, operation).value, Locate(rows, request).value)
  {
  }

  lemma RetainUpdates(rows: Table, request: string, receipt: Receipt)
    requires Sound(rows) && IsHexDigest(receipt.digest) && RetainTx(rows, request, receipt).Some?
    ensures Updates(rows, RetainTx(rows, request, receipt).value, Locate(rows, request).value)
    ensures var row := RetainTx(rows, request, receipt).value[Locate(rows, request).value];
            RetainedCost(row.reservation, receipt.operation, Some(receipt))
  {
  }

  lemma ReconcileUpdates(rows: Table, request: string, operation: string, cost: real)
    requires Sound(rows) && ReconcileTx(rows, request, operation, cost).Some?
    ensures Updates(rows, ReconcileTx(rows, request, operation, cost).value, Locate(rows, request).value)
  {
  }

  lemma SwapUpdates(rows: Table, entry: Row, cost: real)
    requires Sound(rows) && SwapTx(rows, entry, cost).Some?
    ensures Updates(rows, SwapTx(rows, entry, cost).value, Locate(rows, entry.request).value)
  {
  }

  lemma EvolvesTransitively(a: Table, b: Table, c: Table)
    requires TableEvolves(a, b) && TableEvolves(b, c)
    ensures TableEvolves(a, c)
  {
    forall i | 0 <= i < |a|
      ensures Evolves(a[i], c[i])
    {
      assert Evolves(a[i], b[i]) && Evolves(b[i], c[i]);
    }
  }

  // ----- What each transaction does to its row, and when it commits -----

  /** Exactly the row at `at` may differ. */
  ghost predicate OnlyRow(a: Table, b: Table, at: nat) {
    at < |a| == |b| && forall i | 0 <= i < |a| && i != at :: b[i] == a[i]
  }

  predicate AwaitsConversation(a: Row, request: string) {
    a.request == request && a.state == Reserved && a.conversation.None?
  }

  predicate ReadyToDispatch(a: Row, request: string) {
    a.request == request && a.state == Reserved && a.conversation.Some?
  }

  /** It is underway and has no other operation. */
  predicate MayObserve(a: Row, request: string, operation: string) {
    && a.request == request && a.state in {Dispatching, Observing}
    && (a.operation == None || a.operation == Some(operation))
  }

  /** It is observed under this operation and can pay this cost. */
  predicate MaySettle(a: Row, request: string, operation: string, cost: real) {
    && a.request == request && a.state == Observing && a.operation == Some(operation)
    && 0.0 <= cost <= a.reservation.reserved
  }

  /** It is observed under the receipt's operation and conversation, and its cost is still open. */
  predicate MayRetain(a: Row, request: string, receipt: Receipt) {
    && a.request == request && a.state == Observing
    && a.operation == Some(receipt.operation) && a.conversation == receipt.conversation
    && a.reservation.state == Untouched
  }

  /** Only the reservation changed, and of it only these: it holds the cost now and remembers what it held. */
  predicate Settles(a: Row, b: Row, cost: real) {
    && b == a.(reservation := b.reservation)
    && b.reservation.state == Settled
    && b.reservation.reserved == cost && b.reservation.maximum == Some(a.reservation.reserved)
    && b.reservation.evidence == a.reservation.evidence && b.reservation.admittedAt == a.reservation.admittedAt
    && b.reservation.failure == a.reservation.failure && b.reservation.completed == a.reservation.completed
  }

  /** It holds as much as before, as its maximum, with the one proof of this receipt. */
  predicate Retains(a: Row, b: Row, receipt: Receipt) {
    && b == a.(reservation := b.reservation)
    && b.reservation.state == Retained
    && b.reservation.reserved == a.reservation.reserved && b.reservation.maximum == Some(a.reservation.reserved)
    && b.reservation.evidence == a.reservation.evidence && b.reservation.admittedAt == a.reservation.admittedAt
    && (receipt.state == Failed ==>
          && b.reservation.failure == Some(Proof(receipt.operation, Failed, receipt.digest))
          && b.reservation.completed == a.reservation.completed)
    && (receipt.state == Completed ==>
          && b.reservation.completed == Some(Proof(receipt.operation, Completed, receipt.digest))
          && b.reservation.failure == a.reservation.failure)
  }

  lemma LocatesOnly(rows: Table, request: string, i: nat)
    requires Keyed(rows) && i < |rows| && rows[i].request == request
    ensures Locate(rows, request) == Some(i)
  {
  }

  lemma AttachExactly(rows: Table, request: string, conversation: string)
    requires Sound(rows)
    ensures var tx := AttachTx(rows, request, conversation);
            && (tx.Some? <==>
                  conversation != "" && exists i | 0 <= i < |rows| :: AwaitsConversation(rows[i], request))
            && (tx.Some? ==>
                  exists i | 0 <= i < |rows| ::
                    && AwaitsConversation(rows[i], request) && OnlyRow(rows, tx.value, i)
                    && tx.value[i] == rows[i].(conversation := Some(conversation)))
  {
    if i :| 0 <= i < |rows| && AwaitsConversation(rows[i], request) {
      LocatesOnly(rows, request, i);
    }
  }

  lemma DispatchExactly(rows: Table, request: string)
    requires Sound(rows)
    ensures var tx := DispatchTx(rows, request);
            && (tx.Some? <==> exists i | 0 <= i < |rows| :: ReadyToDispatch(rows[i], request))
            && (tx.Some? ==>
                  exists i | 0 <= i < |rows| ::
                    && ReadyToDispatch(rows[i], request) && OnlyRow(rows, tx.value, i)
                    && tx.value[i] == rows[i].(state := Dispatching))
  {
    if i :| 0 <= i < |rows| && ReadyToDispatch(rows[i], request) {
      LocatesOnly(rows, request, i);
    }
  }

  lemma ObserveExactly(rows: Table, request: string, operation: string)
    requires Sound(rows)
    ensures var tx := ObserveTx(rows, request, operation);
            && (tx.Some? <==>
                  operation != "" && exists i | 0 <= i < |rows| :: MayObserve(rows[i], request, operation))
            && (tx.Some? ==>
                  exists i | 0 <= i < |rows| ::
                    && MayObserve(rows[i], request, operation) && OnlyRow(rows, tx.value, i)
                    && tx.value[i] == rows[i].(state := Observing, operation := Some(operation)))
  {
    if i :| 0 <= i < |rows| && MayObserve(rows[i], request, operation) {
      LocatesOnly(rows, request, i);
    }
  }

  /** A retention keeps all the money: it commits exactly for an open row of the receipt's own operation. */
  lemma RetainExactly(rows: Table, request: string, receipt: Receipt)
    requires Sound(rows)
    ensures var tx := RetainTx(rows, request, receipt);
            && (tx.Some? <==>
                  && receipt.verified && receipt.state != Cancelled
                  && exists i | 0 <= i < |rows| :: MayRetain(rows[i], request, receipt))
            && (tx.Some? ==>
                  && Outstanding(Held(tx.value)) == Outstanding(Held(rows))
                  && exists i | 0 <= i < |rows| ::
                       && MayRetain(rows[i], request, receipt) && OnlyRow(rows, tx.value, i)
                       && Retains(rows[i], tx.value[i], receipt))
  {
    if i :| 0 <= i < |rows| && MayRetain(rows[i], request, receipt) {
      LocatesOnly(rows, request, i);
    }
    var tx := RetainTx(rows, request, receipt);
    if tx.Some? {
      var at := Locate(rows, request).value;
      OutstandingOfUpdate(rows, tx.value, at);
    }
  }

  /** Later, a retained cost is accepted with the very receipt that proved it and with no other. */
  lemma RetainedCostExactly(rows: Table, request: string, receipt: Receipt, shown: Receipt)
    requires Sound(rows) && IsHexDigest(receipt.digest) && RetainTx(rows, request, receipt).Some?
    ensures var after := RetainTx(rows, request, receipt).value;
            exists i | 0 <= i < |rows| ::
              && MayRetain(rows[i], request, receipt) && OnlyRow(rows, after, i)
              && RetainedCost(after[i].reservation, receipt.operation, None)
              && (RetainedCost(after[i].reservation, receipt.operation, Some(shown))
                  <==> && shown.verified && shown.state == receipt.state
                       && shown.operation == receipt.operation && shown.digest == receipt.digest)
  {
    var at := Locate(rows, request).value;
    assert RowOk(rows[at]);
    var after := RetainTx(rows, request, receipt).value;
    assert MayRetain(rows[at], request, receipt) && OnlyRow(rows, after, at);
  }

  lemma OutstandingOfUpdate(a: Table, b: Table, at: nat)
    requires at < |a| == |b| && b == a[at := b[at]]
    ensures Outstanding(Held(b)) == Outstanding(Held(a)) - a[at].reservation.reserved + b[at].reservation.reserved
  {
    OutstandingUpdate(Held(a), at, b[at].reservation);
    assert Held(b) == Held(a)[at := b[at].reservation];
  }

  /**
    A settlement commits exactly for an observed row of this operation that can pay the cost. The row then holds the
    cost instead of its reservation, and the outstanding sum falls by the difference.
   */
  lemma ReconcileExactly(rows: Table, request: string, operation: string, cost: real)
    requires Sound(rows)
    ensures var tx := ReconcileTx(rows, request, operation, cost);
            && (tx.Some? <==> exists i | 0 <= i < |rows| :: MaySettle(rows[i], request, operation, cost))
            && (tx.Some? ==>
                  exists i | 0 <= i < |rows| ::
                    && MaySettle(rows[i], request, operation, cost) && OnlyRow(rows, tx.value, i)
                    && Settles(rows[i], tx.value[i], cost)
                    && Outstanding(Held(tx.value)) == Outstanding(Held(rows)) - (rows[i].reservation.reserved - cost))
  {
    if i :| 0 <= i < |rows| && MaySettle(rows[i], request, operation, cost) {
      LocatesOnly(rows, request, i);
    }
    var tx := ReconcileTx(rows, request, operation, cost);
    if tx.Some? {
      OutstandingOfUpdate(rows, tx.value, Locate(rows, request).value);
    }
  }

  /** The compare-and-swap does the same for an entry that is still in the table exactly as it was read. */
  lemma SwapExactly(rows: Table, entry: Row, cost: real)
    requires Sound(rows)
    ensures var tx := SwapTx(rows, entry, cost);
            && (tx.Some? <==>
                  && entry in rows && entry.operation.Some? && entry.reservation.state == Untouched
                  && 0.0 <= cost <= entry.reservation.reserved)
            && (tx.Some? ==>
                  exists i | 0 <= i < |rows| ::
                    && rows[i] == entry && OnlyRow(rows, tx.value, i) && Settles(entry, tx.value[i], cost)
                    && Outstanding(Held(tx.value)) == Outstanding(Held(rows)) - (entry.reservation.reserved - cost))
  {
    if i :| 0 <= i < |rows| && rows[i] == entry {
      LocatesOnly(rows, entry.request, i);
    }
    var tx := SwapTx(rows, entry, cost);
    if tx.Some? {
      OutstandingOfUpdate(rows, tx.value, Locate(rows, entry.request).value);
    }
  }

  /** A reservation commits exactly when its sample is new and it is admitted; the row starts with only its money. */
  lemma ReserveExactly(rows: Table, request: string, plan: string, sample: string, snapshot: Snapshot,
                       bound: real, now: real, authorized: Option<real>)
    ensures var tx := ReserveTx(rows, request, plan, sample, snapshot, bound, now, authorized);
            && (tx.Some? <==>
                  && plan != "" && sample != ""
                  && (forall i | 0 <= i < |rows| :: rows[i].plan != plan || rows[i].sample != sample)
                  && Admit(snapshot, Requests(rows), Held(rows), request, bound, now, authorized).Admitted?)
            && (tx.Some? ==>
                  && |tx.value| == |rows| + 1 && (forall i | 0 <= i < |rows| :: tx.value[i] == rows[i])
                  && var row := tx.value[|rows|];
                     && row.request == request && row.plan == plan && row.sample == sample
                     && row.state == Reserved && row.conversation.None? && row.operation.None?
                     && row.reservation.reserved == bound && row.reservation.state == Untouched
                     && row.reservation.evidence == snapshot.evidence && row.reservation.admittedAt == now)
  {
    hide Exposure, AllMoney, AdmissionCap;
  }

  /** What the row of a request holds beyond a cost. */
  function Freed(rows: Table, request: string, cost: real): real {
    match Locate(rows, request)
    case None => 0.0
    case Some(at) => rows[at].reservation.reserved - cost
  }

  /** A settlement never blocks an admission: whatever would have been admitted before it is admitted after it. */
  lemma SettlementFreesMoney(rows: Table, request: string, operation: string, cost: real, snapshot: Snapshot,
                             next: string, bound: real, now: real, authorized: Option<real>)
    requires Sound(rows) && ReconcileTx(rows, request, operation, cost).Some?
    ensures var after := ReconcileTx(rows, request, operation, cost).value;
            && Requests(after) == Requests(rows)
            && (snapshot.coverage.None? ==>
                  Exposure(snapshot, Held(after)) == Exposure(snapshot, Held(rows)) - Freed(rows, request, cost))
            && (Admit(snapshot, Requests(rows), Held(rows), next, bound, now, authorized).Admitted? ==>
                  Admit(snapshot, Requests(after), Held(after), next, bound, now, authorized).Admitted?)
  {
    var after := ReconcileTx(rows, request, operation, cost).value;
    var i := SettlementOfRow(rows, request, operation, cost);
    assert Held(rows)[i] == rows[i].reservation;
    ExposureOfSettlement(snapshot, Held(rows), i, after[i].reservation);
    LocatesOnly(rows, request, i);
    hide Requests, Sound, Exposure, Admit;
    CheaperHistoryAdmitted(snapshot, Requests(rows), Held(rows), Held(after), next, bound, now, authorized);
  }

  lemma SettlementOfRow(rows: Table, request: string, operation: string, cost: real) returns (i: nat)
    requires Sound(rows) && ReconcileTx(rows, request, operation, cost).Some?
    ensures var after := ReconcileTx(rows, request, operation, cost).value;
            && i < |rows| == |after| && MaySettle(rows[i], request, operation, cost)
            && Settles(rows[i], after[i], cost)
            && Requests(after) == Requests(rows) && Held(after) == Held(rows)[i := after[i].reservation]
            && AllMoney(Held(after))
  {
    ReconcileExactly(rows, request, operation, cost);
    var after := ReconcileTx(rows, request, operation, cost).value;
    i :| 0 <= i < |rows| && MaySettle(rows[i], request, operation, cost) && OnlyRow(rows, after, i)
         && Settles(rows[i], after[i], cost);
    hide ReconcileTx, Settles, MaySettle, RowOk;
    SettledIsMoney(rows, after, i);
    assert forall k | 0 <= k < |rows| :: after[k].request == rows[k].request;
    SameRequests(rows, after);
    assert Held(after) == Held(rows)[i := after[i].reservation];
  }

  lemma ExposureOfSettlement(snapshot: Snapshot, held: seq<Reservation>, i: nat, r: Reservation)
    requires i < |held| && r.state == Settled && 0.0 <= r.reserved <= held[i].reserved
    ensures Exposure(snapshot, held[i := r]) <= Exposure(snapshot, held)
    ensures snapshot.coverage.None? ==>
              Exposure(snapshot, held[i := r]) == Exposure(snapshot, held) - (held[i].reserved - r.reserved)
  {
    hide Outstanding, SettledPart;
    OutstandingUpdate(held, i, r);
    SettledPartUpdate(held, i, r);
  }

  lemma CheaperHistoryAdmitted(snapshot: Snapshot, requests: set<string>, a: seq<Reservation>, b: seq<Reservation>,
                               request: string, bound: real, now: real, authorized: Option<real>)
    requires AllMoney(b) && Exposure(snapshot, b) <= Exposure(snapshot, a)
    ensures Admit(snapshot, requests, a, request, bound, now, authorized).Admitted? ==>
              Admit(snapshot, requests, b, request, bound, now, authorized).Admitted?
  {
    hide Exposure, AdmissionCap, IsBlank, AllMoney;
  }

  lemma SameRequests(a: Table, b: Table)
    requires |a| == |b| && forall k | 0 <= k < |a| :: b[k].request == a[k].request
    ensures Requests(b) == Requests(a)
  {
  }

  lemma SettledIsMoney(a: Table, b: Table, at: nat)
    requires Sound(a) && OnlyRow(a, b, at) && b[at].reservation.reserved >= 0.0
    ensures AllMoney(Held(b))
  {
    assert forall i | 0 <= i < |b| :: i != at ==> Held(b)[i] == a[i].reservation && RowOk(a[i]);
  }

  // ----- The executable ledger -----

  class Store {
    var rows: Table

    constructor ()
      ensures rows == []
    {
      rows := [];
    }

    /** The row a primary-key query selects. */
    method Select(request: string) returns (at: Option<nat>)
      ensures at == Locate(rows, request)
    {
      var i := |rows|;
      assert rows[..i] == rows;
      while i > 0
        invariant 0 <= i <= |rows|
        invariant Locate(rows, request) == Locate(rows[..i], request)
      {
        i := i - 1;
        if rows[i].request == request {
          return Some(i);
        }
        assert rows[..i + 1][..i] == rows[..i];
      }
      return None;
    }

    method Reserve(request: string, plan: string, sample: string, snapshot: Snapshot,
                   bound: real, now: real, authorized: Option<real>)
      returns (ok: bool)
      modifies this
      ensures var tx := ReserveTx(old(rows), request, plan, sample, snapshot, bound, now, authorized);
              ok == tx.Some? && rows == (if ok then tx.value else old(rows))
    {
      if plan == "" || sample == "" {
        return false;
      }
      for i := 0 to |rows|
        invariant forall k | 0 <= k < i :: !(rows[k].plan == plan && rows[k].sample == sample)
        invariant rows == old(rows)
      {
        if rows[i].plan == plan && rows[i].sample == sample {
          return false;
        }
      }
      var admission := Admit(snapshot, Requests(rows), Held(rows), request, bound, now, authorized);
      if admission.Refused? {
        return false;
      }
      rows := rows + [Row(request, plan, sample, admission.reservation, RowState.Reserved, None, None)];
      return true;
    }

    method AttachConversation(request: string, conversation: string) returns (ok: bool)
      modifies this
      ensures var tx := AttachTx(old(rows), request, conversation);
              ok == tx.Some? && rows == (if ok then tx.value else old(rows))
    {
      var at := Select(request);
      if conversation == "" || at.None? || rows[at.value].state != Reserved || rows[at.value].conversation.Some? {
        return false;
      }
      rows := rows[at.value := rows[at.value].(conversation := Some(conversation))];
      return true;
    }

    /** The transaction that must commit before anything is sent. */
    method BeginDispatch(request: string) returns (ok: bool)
      modifies this
      ensures var tx := DispatchTx(old(rows), request);
              ok == tx.Some? && rows == (if ok then tx.value else old(rows))
    {
      var at := Select(request);
      if at.None? || rows[at.value].state != Reserved || rows[at.value].conversation.None? {
        return false;
      }
      rows := rows[at.value := rows[at.value].(state := Dispatching)];
      return true;
    }

    method ObserveHandle(request: string, operation: string) returns (ok: bool)
      modifies this
      ensures var tx := ObserveTx(old(rows), request, operation);
              ok == tx.Some? && rows == (if ok then tx.value else old(rows))
    {
      var at := Select(request);
      if operation == "" || at.None? || rows[at.value].state == Reserved
         || (rows[at.value].operation.Some? && rows[at.value].operation.value != operation) {
        return false;
      }
      rows := rows[at.value := rows[at.value].(state := Observing, operation := Some(operation))];
      return true;
    }

    method RetainUnknownCost(request: string, receipt: Receipt) returns (ok: bool)
      modifies this
      ensures var tx := RetainTx(old(rows), request, receipt);
              ok == tx.Some? && rows == (if ok then tx.value else old(rows))
    {
      if receipt.state == Cancelled || !receipt.verified {
        return false;
      }
      var at := Select(request);
      if at.None? {
        return false;
      }
      var row := rows[at.value];
      if row.state != Observing || row.operation != Some(receipt.operation) || row.conversation != receipt.conversation
         || row.reservation.state != Untouched {
        return false;
      }
      var r := row.reservation;
      r := r.(state := Retained, maximum := Some(r.reserved));
      if receipt.state == Failed {
        r := r.(failure := Some(Proof(receipt.operation, Failed, receipt.digest)));
      } else {
        r := r.(completed := Some(Proof(receipt.operation, Completed, receipt.digest)));
      }
      rows := rows[at.value := row.(reservation := r)];
      return true;
    }

    method RetainFailedCost(request: string, r: PublicReceipt, sha256: Document -> string) returns (ok: bool)
      modifies this
      ensures var tx := if FailureProved(r) then RetainTx(old(rows), request, Proved(r, Failed, sha256)) else None;
              ok == tx.Some? && rows == (if ok then tx.value else old(rows))
    {
      if r.state != Some(Failed) || r.collection != VERIFIED
         || "input_matches_bank" !in r.checks || "stable_snapshot" !in r.checks || !r.supplement {
        return false;
      }
      ok := RetainUnknownCost(request, Receipt(r.operationId, Failed, r.conversation, true, sha256(r.text)));
    }

    method RetainCompletedCost(request: string, r: PublicReceipt, sha256: Document -> string) returns (ok: bool)
      modifies this
      ensures var tx := if CompletionProved(r, sha256) then RetainTx(old(rows), request, Proved(r, Completed, sha256))
                        else None;
              ok == tx.Some? && rows == (if ok then tx.value else old(rows))
    {
      if r.state != Some(Completed) || r.collection != VERIFIED
         || "input_matches_bank" !in r.checks || "stable_snapshot" !in r.checks
         || "public_history_parity" !in r.checks || "citation_ids_known" !in r.checks
         || r.content.None? || IsBlank(r.content.value) || r.resources.None? {
        return false;
      }
      var resources := r.resources.value;
      if resources.operation != r.operation || resources.operationAfter != r.operation || resources.result != r.result
         || resources.history != r.history || resources.history.None? {
        return false;
      }
      if sha256(resources.text) != r.resourcesDigest {
        return false;
      }
      ok := RetainUnknownCost(request, Receipt(r.operationId, Completed, r.conversation, true, sha256(r.text)));
    }

    method ReconcileCost(request: string, operation: Operation, reports: seq<Report>, auxiliary: real)
      returns (ok: bool)
      modifies this
      ensures var cost := Charged(operation, reports, auxiliary);
              var tx := if cost.Some? then ReconcileTx(old(rows), request, operation.id, cost.value) else None;
              ok == tx.Some? && rows == (if ok then tx.value else old(rows))
      ensures ok ==>
                && FullyReported(operation, reports) && auxiliary >= 0.0
                && exists i | 0 <= i < |rows| ::
                     && OnlyRow(old(rows), rows, i)
                     && MaySettle(old(rows)[i], request, operation.id, ReportedCost(reports) + auxiliary)
                     && Settles(old(rows)[i], rows[i], ReportedCost(reports) + auxiliary)
    {
      var attempts := CompletedAttemptCost(operation, reports);
      if attempts.None? || auxiliary < 0.0 {
        return false;
      }
      var cost := attempts.value + auxiliary;
      var at := Select(request);
      if at.None? || rows[at.value].state != Observing || rows[at.value].operation != Some(operation.id)
         || cost > rows[at.value].reservation.reserved {
        return false;
      }
      var row := rows[at.value];
      rows := rows[at.value := row.(reservation := Settle(row.reservation, cost))];
      assert OnlyRow(old(rows), rows, at.value) && Settles(row, rows[at.value], cost);
      return true;
    }
  }
}
