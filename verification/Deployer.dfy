/**
  The blue/green deployer (tools/cd/deploy.py). A command is the sequence of effects it has on the host, given every
  answer of its environment; dying at any moment means that only a prefix of that sequence took place.
 */
module Deployer {
  import opened Outcomes

  /** A full commit SHA, ordered as its text. */
  type Sha = nat

  datatype State = State(current: Sha, slot: int, previous: Option<Sha>, paused: bool)

  datatype Failure = Failure(sha: Sha, retryAllowed: bool, resolved: bool)

  datatype Release = Release(sha: Sha, slot: int)

  /** state.json, failure.json, the release directories in listing order, what runs, and what ever passed smoke. */
  datatype Host = Host(
    state: Option<State>, failure: Option<Failure>, releases: seq<Release>, running: set<Sha>, smoked: set<Sha>)

  /** `compose down` either stops the stack, or fails and leaves it in either condition. */
  datatype DownResult = Stopped | FailedRunning | FailedStopped

  /** `compose up` reports success or not; a failed one may leave containers behind. */
  datatype UpResult = UpResult(ok: bool, started: bool)

  datatype Effect =
    | Down(sha: Sha, result: DownResult)
    | Up(sha: Sha, outcome: UpResult)
    | Smoke(sha: Sha)
    | Prepare(sha: Sha, slot: int)
    | Promote(state: State)
    | Mark(failure: Failure)

  function SlotOf(releases: seq<Release>, sha: Sha): Option<int> {
    if releases == [] then None
    else if releases[0].sha == sha then Some(releases[0].slot)
    else SlotOf(releases[1..], sha)
  }

  /** Adds a directory at its place in the sorted listing. */
  function Insert(releases: seq<Release>, r: Release): seq<Release> {
    if releases == [] || r.sha < releases[0].sha then [r] + releases
    else [releases[0]] + Insert(releases[1..], r)
  }

  function Apply(h: Host, e: Effect): Host {
    match e
    case Down(sha, result) => if result == FailedRunning then h else h.(running := h.running - {sha})
    case Up(sha, outcome) => if outcome.ok || outcome.started then h.(running := h.running + {sha}) else h
    case Smoke(sha) => h.(smoked := h.smoked + {sha})
    case Prepare(sha, slot) => h.(releases := Insert(h.releases, Release(sha, slot)))
    case Promote(state) => h.(state := Some(state))
    case Mark(failure) => h.(failure := Some(failure))
  }

  function Replay(h: Host, effects: seq<Effect>): Host
    decreases |effects|
  {
    if effects == [] then h else Replay(Apply(h, effects[0]), effects[1..])
  }

  function Current(h: Host): Option<Sha> {
    if h.state.Some? then Some(h.state.value.current) else None
  }

  // ----- The commands -----

  const REPOSITORY := "EconomiconFinOps/tfm-economicon"

  datatype Run = Run(
    id: int, attempt: int, head: Sha, branch: string, event: string, status: string, conclusion: string,
    repository: string)

  /** The answers one command gets. A missing answer is a call that raised. */
  datatype World = World(
    sweep: map<Sha, DownResult>, copiesLeft: bool,            // first reconciliation
    currentUp: UpResult,
    head: Option<Sha>, runs: Option<seq<Run>>, integrated: bool,
    sweepAgain: map<Sha, DownResult>, copiesLeftAgain: bool,  // reconciliation before the slot is reused
    fetched: Option<Sha>, copied: bool, headAgain: Option<Sha>,
    built: bool, up: UpResult, smokePasses: bool, headLast: Option<Sha>,
    candidateDown: DownResult, markKept: bool, markAgainKept: bool, resolveKept: bool, resolveLastKept: bool,
    sweepLast: map<Sha, DownResult>, copiesLeftLast: bool)    // reconciliation after a promotion

  datatype Trace = Trace(effects: seq<Effect>, ok: bool)

  function Result(sweep: map<Sha, DownResult>, sha: Sha): DownResult {
    if sha in sweep then sweep[sha] else Stopped
  }

  function Latest(runs: seq<Run>): Run
    requires runs != []
  {
    if |runs| == 1 then runs[0]
    else
      var best := Latest(runs[..|runs| - 1]);
      var last := runs[|runs| - 1];
      if last.id > best.id || (last.id == best.id && last.attempt > best.attempt) then last else best
  }

  /** A successful delivery run of develop, of this repository itself. */
  predicate Green(run: Run) {
    && run.branch == "develop" && run.event in {"push", "workflow_dispatch"}
    && run.status == "completed" && run.conclusion == "success" && run.repository == REPOSITORY
  }

  predicate Eligible(runs: seq<Run>, head: Sha) {
    runs != [] && Latest(runs).head == head && Green(Latest(runs))
  }

  function Sweep(releases: seq<Release>, current: Option<Sha>, sweep: map<Sha, DownResult>): seq<Effect> {
    if releases == [] then []
    else
      (if Some(releases[0].sha) == current then [] else [Down(releases[0].sha, Result(sweep, releases[0].sha))]) +
      Sweep(releases[1..], current, sweep)
  }

  predicate AllStopped(releases: seq<Release>, current: Option<Sha>, sweep: map<Sha, DownResult>) {
    forall i | 0 <= i < |releases| && Some(releases[i].sha) != current :: Result(sweep, releases[i].sha) == Stopped
  }

  function Reconcile(h: Host, current: Option<Sha>, sweep: map<Sha, DownResult>, copiesLeft: bool): Trace {
    Trace(Sweep(h.releases, current, sweep), AllStopped(h.releases, current, sweep) && !copiesLeft)
  }

  function RecordFailure(sha: Sha, permanent: bool, w: World): seq<Effect> {
    (if permanent && w.markKept then [Mark(Failure(sha, false, false))] else []) +
    [Down(sha, w.candidateDown)] +
    (if permanent && w.candidateDown != Stopped && w.markAgainKept then [Mark(Failure(sha, false, false))] else [])
  }

  function ResolveFailure(h: Host, current: Sha, kept: bool): seq<Effect> {
    if kept && h.failure.Some? && h.failure.value.sha == current && !h.failure.value.resolved
    then [Mark(h.failure.value.(resolved := true))] else []
  }

  function After(first: seq<Effect>, rest: Trace): Trace {
    Trace(first + rest.effects, rest.ok)
  }

  /** What follows a change of state.json. */
  function Finish(h: Host, current: Sha, w: World): Trace {
    var resolved := ResolveFailure(h, current, w.resolveLastKept);
    After(resolved, Reconcile(Replay(h, resolved), Some(current), w.sweepLast, w.copiesLeftLast))
  }

  function Deploy(h: Host, sha: Sha, slot: int, expected: Option<Sha>, w: World): Trace {
    if Current(h) == Some(sha) then Trace(ResolveFailure(h, sha, w.resolveLastKept), true)
    else if !w.built then Trace(RecordFailure(sha, true, w), false)
    else if !w.up.ok || !w.smokePasses then Trace([Up(sha, w.up)] + RecordFailure(sha, true, w), false)
    else if expected.Some? && w.headLast != expected then
      Trace([Up(sha, w.up), Smoke(sha)] + RecordFailure(sha, false, w), w.headLast.Some?)
    else
      var promoted := [Up(sha, w.up), Smoke(sha), Promote(State(sha, slot, Current(h), false))];
      After(promoted, Finish(Replay(h, promoted), sha, w))
  }

  function NextSlot(h: Host): int {
    if h.state.Some? then 1 - h.state.value.slot else 0
  }

  /** `prepare` and, unless develop moved on meanwhile, `deploy`. */
  function PrepareAndDeploy(h: Host, sha: Sha, expected: Option<Sha>, w: World): Trace {
    var slot := NextSlot(h);
    var stored := SlotOf(h.releases, sha);
    if stored.Some? && stored.value != slot then Trace([], false)
    else if stored.None? && !w.copied then Trace([], false)
    else
      var prepared := if stored.Some? then [] else [Prepare(sha, slot)];
      if expected.Some? && w.headAgain != expected then Trace(prepared, w.headAgain.Some?)
      else After(prepared, Deploy(Replay(h, prepared), sha, slot, expected, w))
  }

  /** The part of `poll` that does not depend on the remote answers: clean up, then bring the current release up. */
  function Recover(h: Host, w: World): seq<Effect> {
    Sweep(h.releases, Current(h), w.sweep) +
    match Current(h)
    case None => []
    case Some(current) =>
      [Up(current, w.currentUp)] + if w.currentUp.ok then ResolveFailure(h, current, w.resolveKept) else []
  }

  predicate Quarantined(h: Host, head: Sha) {
    h.failure.Some? && h.failure.value.sha == head && !h.failure.value.retryAllowed
  }

  /** The eligible revision, when this poll may deploy one. */
  function Candidate(h: Host, w: World): Option<Sha> {
    if w.head.None? || w.runs.None? || !w.integrated || !Eligible(w.runs.value, w.head.value) then None
    else if Current(h) == w.head || (h.state.Some? && h.state.value.paused) || Quarantined(h, w.head.value) then None
    else w.head
  }

  function Poll(h: Host, w: World): Trace {
    var recovered := Recover(h, w);
    After(recovered, Advance(Replay(h, recovered), w))
  }

  /** The rest of `poll`: choose a candidate and, once the other slot is certainly free, deploy it. */
  function Advance(h: Host, w: World): Trace {
    var candidate := Candidate(h, w);
    if candidate.None? then Trace([], w.head.Some? && w.runs.Some?)
    else
      var swept := Reconcile(h, Current(h), w.sweepAgain, w.copiesLeftAgain);
      if !swept.ok then swept
      else if w.fetched != candidate then Trace(swept.effects, w.fetched.Some?)
      else After(swept.effects, PrepareAndDeploy(Replay(h, swept.effects), candidate.value, candidate, w))
  }

  function Rollback(h: Host, w: World): Trace {
    if h.state.None? then Trace([], false)
    else
      var state := h.state.value;
      var target := if state.paused then Some(state.current) else state.previous;
      if target.None? then Trace([], false)
      else if !w.up.ok || !w.smokePasses then
        Trace([Up(target.value, w.up)] + if state.paused then [] else RecordFailure(target.value, true, w), false)
      else
        var slot := SlotOf(h.releases, target.value);
        if slot.None? then Trace([Up(target.value, w.up), Smoke(target.value)], false)
        else
          var next := State(target.value, slot.value, Some(state.current), true);
          var verified := [Up(target.value, w.up), Smoke(target.value)] +
                          if state.paused then [] else [Promote(next)];
          After(verified, Finish(Replay(h, verified), target.value, w))
  }

  function Resume(h: Host): Trace {
    Trace((if h.state.Some? then [Promote(h.state.value.(paused := false))] else []) +
          (if h.failure.Some? then [Mark(h.failure.value.(retryAllowed := true))] else []), true)
  }

  function ValidateSource(h: Host, sha: Sha, w: World): Trace {
    if (h.state.Some? && h.state.value.paused) || SlotOf(h.releases, sha).Some? then Trace([], false)
    else
      var swept := Reconcile(h, Current(h), w.sweepAgain, w.copiesLeftAgain);
      if !swept.ok then swept
      else After(swept.effects, PrepareAndDeploy(Replay(h, swept.effects), sha, None, w))
  }

  datatype Command = PollNow(w: World) | RollbackNow(w: World) | ResumeNow | ValidateNow(sha: Sha, w: World)

  function Outcome(h: Host, c: Command): Trace {
    match c
    case PollNow(w) => Poll(h, w)
    case RollbackNow(w) => Rollback(h, w)
    case ResumeNow => Resume(h)
    case ValidateNow(sha, w) => ValidateSource(h, sha, w)
  }

  /** A command, and after how many of its effects the process dies. */
  datatype Attempt = Attempt(command: Command, survived: nat)

  function Done(h: Host, a: Attempt): seq<Effect> {
    var effects := Outcome(h, a.command).effects;
    if a.survived < |effects| then effects[..a.survived] else effects
  }

  function Operate(h: Host, attempts: seq<Attempt>): Host
    decreases |attempts|
  {
    if attempts == [] then h else Operate(Replay(h, Done(h, attempts[0])), attempts[1..])
  }

  const FRESH := Host(None, None, [], {}, {})

  // ----- What must hold at every effect -----

  predicate Known(h: Host, sha: Sha) {
    SlotOf(h.releases, sha).Some?
  }

  /** current and previous passed smoke, are distinct and sit in opposite slots; state.slot is current's own slot. */
  predicate StateOk(h: Host, s: State) {
    && s.slot in {0, 1}
    && s.current in h.smoked && SlotOf(h.releases, s.current) == Some(s.slot)
    && (s.previous.Some? ==>
          && s.previous.value != s.current && s.previous.value in h.smoked
          && SlotOf(h.releases, s.previous.value) == Some(1 - s.slot))
    && (s.paused ==> s.previous.Some?)
  }

  predicate Safe(h: Host) {
    && (forall r | r in h.running :: Known(h, r))
    && (h.state.Some? ==> StateOk(h, h.state.value))
  }

  predicate Permitted(h: Host, e: Effect) {
    && (e.Down? ==> Some(e.sha) != Current(h))
    && Safe(Apply(h, e))
  }

  predicate OnlyCurrentRuns(h: Host) {
    forall r | r in h.running :: Some(r) == Current(h)
  }

  /** A release other than current comes up only when nothing but current runs, and in the other slot. */
  predicate Exclusive(h: Host, e: Effect) {
    e.Up? && Some(e.sha) != Current(h) ==>
      && OnlyCurrentRuns(h)
      && SlotOf(h.releases, e.sha) == Some(NextSlot(h))
  }

  predicate Orderly(h: Host, e: Effect) {
    Permitted(h, e) && Exclusive(h, e)
  }

  ghost predicate Always(h: Host, effects: seq<Effect>, p: (Host, Effect) -> bool)
    decreases |effects|
  {
    effects == [] || (p(h, effects[0]) && Always(Apply(h, effects[0]), effects[1..], p))
  }

  lemma {:induction false} AlwaysConcat(h: Host, a: seq<Effect>, b: seq<Effect>, p: (Host, Effect) -> bool)
    ensures Replay(h, a + b) == Replay(Replay(h, a), b)
    ensures Always(h, a + b, p) <==> Always(h, a, p) && Always(Replay(h, a), b, p)
    decreases |a|
  {
    if a == [] {
      assert a + b == b;
    } else {
      assert (a + b)[1..] == a[1..] + b;
      AlwaysConcat(Apply(h, a[0]), a[1..], b, p);
    }
  }

  lemma AlwaysOne(h: Host, e: Effect, p: (Host, Effect) -> bool)
    ensures Replay(h, [e]) == Apply(h, e)
    ensures Always(h, [e], p) <==> p(h, e)
  {
    assert [e][1..] == [];
  }

  lemma AlwaysTwo(h: Host, a: Effect, b: Effect, p: (Host, Effect) -> bool)
    ensures Replay(h, [a, b]) == Apply(Apply(h, a), b)
    ensures Always(h, [a, b], p) <==> p(h, a) && p(Apply(h, a), b)
  {
    AlwaysOne(Apply(h, a), b, p);
    assert [a, b][1..] == [b];
  }

  lemma {:induction false} OrderlyIsPermitted(h: Host, effects: seq<Effect>)
    requires Always(h, effects, Orderly)
    ensures Always(h, effects, Permitted)
    decreases |effects|
  {
    if effects != [] {
      OrderlyIsPermitted(Apply(h, effects[0]), effects[1..]);
    }
  }

  lemma {:induction false} PermittedKeepsSafe(h: Host, effects: seq<Effect>)
    requires Safe(h) && Always(h, effects, Permitted)
    ensures Safe(Replay(h, effects))
    decreases |effects|
  {
    if effects != [] {
      PermittedKeepsSafe(Apply(h, effects[0]), effects[1..]);
    }
  }

  // ----- Pieces of commands -----

  /** Same state, directories and history; what runs may only have shrunk. */
  predicate Shrunk(h: Host, g: Host) {
    g.state == h.state && g.releases == h.releases && g.smoked == h.smoked && g.running <= h.running
  }

  lemma {:induction false} KnownIsListed(releases: seq<Release>, sha: Sha)
    requires SlotOf(releases, sha).Some?
    ensures exists i | 0 <= i < |releases| :: releases[i].sha == sha
  {
    if releases[0].sha != sha {
      KnownIsListed(releases[1..], sha);
      var i :| 0 <= i < |releases[1..]| && releases[1..][i].sha == sha;
      assert releases[i + 1].sha == sha;
    }
  }

  lemma {:induction false} SlotAfterInsert(releases: seq<Release>, r: Release, sha: Sha)
    requires SlotOf(releases, r.sha).None?
    ensures SlotOf(Insert(releases, r), sha) == if sha == r.sha then Some(r.slot) else SlotOf(releases, sha)
  {
    if releases == [] || r.sha < releases[0].sha {
      assert ([r] + releases)[1..] == releases;
    } else {
      SlotAfterInsert(releases[1..], r, sha);
      assert ([releases[0]] + Insert(releases[1..], r))[1..] == Insert(releases[1..], r);
    }
  }

  lemma {:induction false} SweepEffects(h: Host, releases: seq<Release>, sweep: map<Sha, DownResult>)
    requires Safe(h)
    ensures var effects := Sweep(releases, Current(h), sweep);
            var g := Replay(h, effects);
            && Always(h, effects, Orderly) && Safe(g) && Shrunk(h, g) && g.failure == h.failure
            && (Current(h).Some? && Current(h).value in h.running ==> Current(h).value in g.running)
            && (AllStopped(releases, Current(h), sweep) ==>
                  forall i | 0 <= i < |releases| && Some(releases[i].sha) != Current(h) ::
                    releases[i].sha !in g.running)
    decreases |releases|
  {
    if releases != [] {
      var sha := releases[0].sha;
      var rest := Sweep(releases[1..], Current(h), sweep);
      if Some(sha) == Current(h) {
        assert Sweep(releases, Current(h), sweep) == rest;
        SweepEffects(h, releases[1..], sweep);
      } else {
        var e := Down(sha, Result(sweep, sha));
        var next := Apply(h, e);
        assert forall r | r in next.running :: Known(h, r);
        SweepEffects(next, releases[1..], sweep);
        hide SlotOf;
        assert Sweep(releases, Current(h), sweep)[1..] == rest;
      }
      assert AllStopped(releases, Current(h), sweep) ==> AllStopped(releases[1..], Current(h), sweep) by {
        assert forall i | 0 <= i < |releases[1..]| :: releases[1..][i] == releases[i + 1];
      }
    }
  }

  lemma ReconcileEffects(h: Host, sweep: map<Sha, DownResult>, copiesLeft: bool)
    requires Safe(h)
    ensures var t := Reconcile(h, Current(h), sweep, copiesLeft);
            var g := Replay(h, t.effects);
            && Always(h, t.effects, Orderly) && Safe(g) && Shrunk(h, g) && g.failure == h.failure
            && (Current(h).Some? && Current(h).value in h.running ==> Current(h).value in g.running)
            && (AllStopped(h.releases, Current(h), sweep) ==> OnlyCurrentRuns(g))
  {
    SweepEffects(h, h.releases, sweep);
    var g := Replay(h, Sweep(h.releases, Current(h), sweep));
    if AllStopped(h.releases, Current(h), sweep) {
      forall r | r in g.running
        ensures Some(r) == Current(h)
      {
        assert Known(h, r);
        KnownIsListed(h.releases, r);
      }
    }
  }

  lemma ResolveEffects(h: Host, current: Sha, kept: bool)
    requires Safe(h)
    ensures var effects := ResolveFailure(h, current, kept);
            var g := Replay(h, effects);
            && Always(h, effects, Orderly) && g == h.(failure := g.failure)
            && (g.failure != h.failure ==> h.failure.Some? && g.failure == Some(h.failure.value.(resolved := true)))
  {
    var effects := ResolveFailure(h, current, kept);
    if effects != [] {
      AlwaysOne(h, effects[0], Orderly);
    }
  }

  lemma RecordFailureEffects(h: Host, sha: Sha, permanent: bool, w: World)
    requires Safe(h) && Some(sha) != Current(h)
    ensures var effects := RecordFailure(sha, permanent, w);
            var g := Replay(h, effects);
            && Always(h, effects, Orderly) && Safe(g) && Shrunk(h, g)
            && g.running == if w.candidateDown == FailedRunning then h.running else h.running - {sha}
  {
    var mark := Mark(Failure(sha, false, false));
    var first := if permanent && w.markKept then [mark] else [];
    var down := [Down(sha, w.candidateDown)];
    var last := if permanent && w.candidateDown != Stopped && w.markAgainKept then [mark] else [];
    AlwaysOne(h, mark, Orderly);
    var h1 := Replay(h, first);
    AlwaysOne(h1, down[0], Orderly);
    var h2 := Apply(h1, down[0]);
    assert forall r | r in h2.running :: Known(h, r);
    AlwaysOne(h2, mark, Orderly);
    hide SlotOf, Safe;
    AlwaysConcat(h, first, down, Orderly);
    AlwaysConcat(h, first + down, last, Orderly);
  }

  lemma FinishEffects(h: Host, current: Sha, w: World)
    requires Safe(h) && Current(h) == Some(current)
    ensures var effects := Finish(h, current, w).effects;
            var g := Replay(h, effects);
            && Always(h, effects, Orderly) && Safe(g) && Shrunk(h, g)
            && (current in h.running ==> current in g.running)
            && (AllStopped(h.releases, Some(current), w.sweepLast) ==> OnlyCurrentRuns(g))
  {
    var resolved := ResolveFailure(h, current, w.resolveLastKept);
    ResolveEffects(h, current, w.resolveLastKept);
    var h1 := Replay(h, resolved);
    assert Safe(h1);
    ReconcileEffects(h1, w.sweepLast, w.copiesLeftLast);
    AlwaysConcat(h, resolved, Reconcile(h1, Some(current), w.sweepLast, w.copiesLeftLast).effects, Orderly);
  }

  // ----- Commands -----

  function Runs(h: Host): set<Sha> {
    if h.state.Some? then {h.state.value.current} else {}
  }

  /** Exactly current runs, or nothing when there is none. */
  predicate Settled(h: Host) {
    h.running == Runs(h)
  }

  predicate NothingFailsToStop(w: World) {
    && (forall sha | sha in w.sweep :: w.sweep[sha] == Stopped)
    && (forall sha | sha in w.sweepAgain :: w.sweepAgain[sha] == Stopped)
    && (forall sha | sha in w.sweepLast :: w.sweepLast[sha] == Stopped)
    && w.candidateDown == Stopped
  }

  /** A candidate that may be started: known, in the free slot, with nothing but current running. */
  predicate Startable(h: Host, sha: Sha) {
    Safe(h) && OnlyCurrentRuns(h) && Some(sha) != Current(h) && SlotOf(h.releases, sha) == Some(NextSlot(h))
  }

  lemma StartEffects(h: Host, sha: Sha, w: World)
    requires Startable(h, sha)
    ensures var g := Replay(h, [Up(sha, w.up)]);
            && Always(h, [Up(sha, w.up)], Orderly) && Safe(g)
            && g == h.(running := g.running) && h.running <= g.running <= h.running + {sha}
            && (w.up.ok ==> g.running == h.running + {sha})
  {
    AlwaysOne(h, Up(sha, w.up), Orderly);
  }

  lemma FailedStart(h: Host, sha: Sha, permanent: bool, smoked: bool, w: World)
    requires Startable(h, sha)
    ensures var effects := [Up(sha, w.up)] + (if smoked then [Smoke(sha)] else []) + RecordFailure(sha, permanent, w);
            var g := Replay(h, effects);
            && Always(h, effects, Orderly) && Safe(g) && g.state == h.state
            && (w.candidateDown == Stopped ==> g.running == h.running)
  {
    var up, smoke := [Up(sha, w.up)], if smoked then [Smoke(sha)] else [];
    StartEffects(h, sha, w);
    var h1 := Replay(h, up);
    AlwaysOne(h1, Smoke(sha), Orderly);
    var h2 := Replay(h1, smoke);
    RecordFailureEffects(h2, sha, permanent, w);
    AlwaysConcat(h, up, smoke, Orderly);
    AlwaysConcat(h, up + smoke, RecordFailure(sha, permanent, w), Orderly);
  }

  lemma PromoteEffects(h: Host, sha: Sha, slot: int, w: World)
    requires Startable(h, sha) && slot == NextSlot(h) && w.up.ok
    ensures var effects := [Up(sha, w.up), Smoke(sha), Promote(State(sha, slot, Current(h), false))];
            var g := Replay(h, effects);
            && Always(h, effects, Orderly) && Safe(g)
            && g.state == Some(State(sha, slot, Current(h), false)) && g.running == h.running + {sha}
            && g.releases == h.releases
  {
    var state := State(sha, slot, Current(h), false);
    StartEffects(h, sha, w);
    var h1 := Replay(h, [Up(sha, w.up)]);
    AlwaysOne(h1, Smoke(sha), Orderly);
    AlwaysOne(Apply(h1, Smoke(sha)), Promote(state), Orderly);
    AlwaysTwo(h1, Smoke(sha), Promote(state), Orderly);
    AlwaysConcat(h, [Up(sha, w.up)], [Smoke(sha), Promote(state)], Orderly);
    assert [Up(sha, w.up)] + [Smoke(sha), Promote(state)] == [Up(sha, w.up), Smoke(sha), Promote(state)];
  }

  lemma DeployEffects(h: Host, sha: Sha, slot: int, expected: Option<Sha>, w: World)
    requires Startable(h, sha) && slot == NextSlot(h)
    ensures var t := Deploy(h, sha, slot, expected, w);
            var g := Replay(h, t.effects);
            && Always(h, t.effects, Orderly) && Safe(g)
            && (NothingFailsToStop(w) && Settled(h) ==> Settled(g))
  {
    var effects := Deploy(h, sha, slot, expected, w).effects;
    if !w.built {
      RecordFailureEffects(h, sha, true, w);
    } else if !w.up.ok || !w.smokePasses {
      FailedStart(h, sha, true, false, w);
      assert [Up(sha, w.up)] + [] == [Up(sha, w.up)];
    } else if expected.Some? && w.headLast != expected {
      FailedStart(h, sha, false, true, w);
      assert [Up(sha, w.up)] + [Smoke(sha)] == [Up(sha, w.up), Smoke(sha)];
    } else {
      var promoted := [Up(sha, w.up), Smoke(sha), Promote(State(sha, slot, Current(h), false))];
      PromoteEffects(h, sha, slot, w);
      var h1 := Replay(h, promoted);
      FinishEffects(h1, sha, w);
      AlwaysConcat(h, promoted, Finish(h1, sha, w).effects, Orderly);
    }
  }

  lemma PrepareAndDeployEffects(h: Host, sha: Sha, expected: Option<Sha>, w: World)
    requires Safe(h) && OnlyCurrentRuns(h) && Some(sha) != Current(h)
    ensures var t := PrepareAndDeploy(h, sha, expected, w);
            var g := Replay(h, t.effects);
            && Always(h, t.effects, Orderly) && Safe(g)
            && (NothingFailsToStop(w) && Settled(h) ==> Settled(g))
  {
    var slot, stored := NextSlot(h), SlotOf(h.releases, sha);
    if !(stored.Some? && stored.value != slot) && !(stored.None? && !w.copied) {
      var prepared := if stored.Some? then [] else [Prepare(sha, slot)];
      var h1 := Replay(h, prepared);
      if stored.None? {
        PrepareEffects(h, sha, slot);
      }
      if !(expected.Some? && w.headAgain != expected) {
        DeployEffects(h1, sha, slot, expected, w);
        AlwaysConcat(h, prepared, Deploy(h1, sha, slot, expected, w).effects, Orderly);
      }
    }
  }

  lemma PrepareEffects(h: Host, sha: Sha, slot: int)
    requires Safe(h) && SlotOf(h.releases, sha).None?
    ensures var g := Replay(h, [Prepare(sha, slot)]);
            && Always(h, [Prepare(sha, slot)], Orderly) && Safe(g)
            && g == h.(releases := g.releases) && SlotOf(g.releases, sha) == Some(slot)
  {
    AlwaysOne(h, Prepare(sha, slot), Orderly);
    forall x: Sha
      ensures SlotOf(Insert(h.releases, Release(sha, slot)), x)
              == if x == sha then Some(slot) else SlotOf(h.releases, x)
    {
      SlotAfterInsert(h.releases, Release(sha, slot), x);
    }
  }

  /** Bringing current up again, and noting that its failure is over. */
  lemma RecoverCurrentEffects(h: Host, w: World)
    requires Safe(h) && h.state.Some?
    ensures var current := h.state.value.current;
            var effects := [Up(current, w.currentUp)] +
                           if w.currentUp.ok then ResolveFailure(h, current, w.resolveKept) else [];
            var g := Replay(h, effects);
            && Always(h, effects, Orderly) && Safe(g) && g.state == h.state && g.releases == h.releases
            && (OnlyCurrentRuns(h) && w.currentUp.ok ==> Settled(g))
            && (h.failure.Some? <==> g.failure.Some?)
            && (h.failure.Some? ==> g.failure.value.(resolved := true) == h.failure.value.(resolved := true))
  {
    var current := h.state.value.current;
    var up := Up(current, w.currentUp);
    AlwaysOne(h, up, Orderly);
    var next := Apply(h, up);
    var resolved := if w.currentUp.ok then ResolveFailure(h, current, w.resolveKept) else [];
    assert ResolveFailure(next, current, w.resolveKept) == ResolveFailure(h, current, w.resolveKept);
    ResolveEffects(next, current, w.resolveKept);
    AlwaysConcat(h, [up], resolved, Orderly);
  }

  lemma RecoverEffects(h: Host, w: World)
    requires Safe(h)
    ensures var effects := Recover(h, w);
            var g := Replay(h, effects);
            && Always(h, effects, Orderly) && Safe(g) && g.state == h.state && g.releases == h.releases
            && (AllStopped(h.releases, Current(h), w.sweep) && (h.state.Some? ==> w.currentUp.ok) ==> Settled(g))
            && (h.failure.Some? <==> g.failure.Some?)
            && (h.failure.Some? ==> g.failure.value.(resolved := true) == h.failure.value.(resolved := true))
  {
    hide Replay, Always, Safe, AllStopped;
    var swept := Sweep(h.releases, Current(h), w.sweep);
    ReconcileEffects(h, w.sweep, w.copiesLeft);
    var h1 := Replay(h, swept);
    if h.state.Some? {
      var current := h.state.value.current;
      var rest := [Up(current, w.currentUp)] +
                  if w.currentUp.ok then ResolveFailure(h, current, w.resolveKept) else [];
      RecoverCurrentEffects(h1, w);
      assert ResolveFailure(h1, current, w.resolveKept) == ResolveFailure(h, current, w.resolveKept);
      AlwaysConcat(h, swept, rest, Orderly);
      assert Recover(h, w) == swept + rest;
    } else {
      assert swept + [] == swept;
    }
  }

  lemma AdvanceEffects(h: Host, w: World)
    requires Safe(h)
    ensures var t := Advance(h, w);
            var g := Replay(h, t.effects);
            && Always(h, t.effects, Orderly) && Safe(g)
            && (NothingFailsToStop(w) && Settled(h) ==> Settled(g))
  {
    var candidate := Candidate(h, w);
    if candidate.Some? {
      ReconcileEffects(h, w.sweepAgain, w.copiesLeftAgain);
      var swept := Reconcile(h, Current(h), w.sweepAgain, w.copiesLeftAgain);
      var h1 := Replay(h, swept.effects);
      assert Settled(h) ==> Settled(h1);
      if swept.ok && w.fetched == candidate {
        PrepareAndDeployEffects(h1, candidate.value, candidate, w);
        AlwaysConcat(h, swept.effects, PrepareAndDeploy(h1, candidate.value, candidate, w).effects, Orderly);
      }
    }
  }

  lemma PollEffects(h: Host, w: World)
    requires Safe(h)
    ensures var t := Poll(h, w);
            var g := Replay(h, t.effects);
            && Always(h, t.effects, Orderly) && Safe(g)
            && (NothingFailsToStop(w) && (h.state.Some? ==> w.currentUp.ok) ==> Settled(g))
  {
    RecoverEffects(h, w);
    var recovered := Recover(h, w);
    AdvanceEffects(Replay(h, recovered), w);
    AlwaysConcat(h, recovered, Advance(Replay(h, recovered), w).effects, Orderly);
  }

  lemma ValidateEffects(h: Host, sha: Sha, w: World)
    requires Safe(h)
    ensures var t := ValidateSource(h, sha, w);
            Always(h, t.effects, Orderly) && Safe(Replay(h, t.effects))
  {
    if !(h.state.Some? && h.state.value.paused) && SlotOf(h.releases, sha).None? {
      ReconcileEffects(h, w.sweepAgain, w.copiesLeftAgain);
      var swept := Reconcile(h, Current(h), w.sweepAgain, w.copiesLeftAgain);
      var h1 := Replay(h, swept.effects);
      if swept.ok {
        PrepareAndDeployEffects(h1, sha, None, w);
        AlwaysConcat(h, swept.effects, PrepareAndDeploy(h1, sha, None, w).effects, Orderly);
      }
    }
  }

  lemma ResumeEffects(h: Host)
    requires Safe(h)
    ensures var t := Resume(h);
            Always(h, t.effects, Orderly) && Safe(Replay(h, t.effects))
  {
    var first := if h.state.Some? then [Promote(h.state.value.(paused := false))] else [];
    var last := if h.failure.Some? then [Mark(h.failure.value.(retryAllowed := true))] else [];
    if h.state.Some? {
      AlwaysOne(h, first[0], Orderly);
    }
    var h1 := Replay(h, first);
    if h.failure.Some? {
      AlwaysOne(h1, last[0], Orderly);
    }
    AlwaysConcat(h, first, last, Orderly);
  }

  // A rollback brings the previous release up without reconciling first.

  function Target(state: State): Option<Sha> {
    if state.paused then Some(state.current) else state.previous
  }

  lemma RollbackStart(h: Host, target: Sha, w: World)
    requires Safe(h) && h.state.Some? && Target(h.state.value) == Some(target)
    ensures Always(h, [Up(target, w.up), Smoke(target)], Permitted)
    ensures var g := Replay(h, [Up(target, w.up), Smoke(target)]);
            Safe(g) && g == h.(running := g.running, smoked := g.smoked)
    ensures Always(h, [Up(target, w.up)], Permitted)
    ensures var g := Replay(h, [Up(target, w.up)]);
            Safe(g) && g == h.(running := g.running)
  {
    var up := Up(target, w.up);
    AlwaysTwo(h, up, Smoke(target), Permitted);
    AlwaysOne(h, up, Permitted);
  }

  lemma RollbackEffects(h: Host, w: World)
    requires Safe(h)
    ensures var t := Rollback(h, w);
            Always(h, t.effects, Permitted) && Safe(Replay(h, t.effects))
  {
    if h.state.Some? && Target(h.state.value).Some? {
      var state := h.state.value;
      var target := Target(state).value;
      RollbackStart(h, target, w);
      if !w.up.ok || !w.smokePasses {
        var h1 := Replay(h, [Up(target, w.up)]);
        if state.paused {
          assert [Up(target, w.up)] + [] == [Up(target, w.up)];
        } else {
          RecordFailureEffects(h1, target, true, w);
          OrderlyIsPermitted(h1, RecordFailure(target, true, w));
          AlwaysConcat(h, [Up(target, w.up)], RecordFailure(target, true, w), Permitted);
        }
      } else {
        RollbackPromotes(h, target, w);
      }
    }
  }

  /** The effects of a rollback up to the moment its new state, if any, is written. */
  function Verifying(h: Host, target: Sha, w: World): seq<Effect>
    requires h.state.Some?
  {
    [Up(target, w.up), Smoke(target)] +
    match SlotOf(h.releases, target)
    case None => []
    case Some(slot) =>
      if h.state.value.paused then [] else [Promote(State(target, slot, Some(h.state.value.current), true))]
  }

  lemma RollbackState(h: Host, target: Sha, w: World)
    requires Safe(h) && h.state.Some? && Target(h.state.value) == Some(target)
    ensures SlotOf(h.releases, target).Some?
    ensures var g := Replay(h, Verifying(h, target, w));
            && Always(h, Verifying(h, target, w), Permitted) && Safe(g) && Current(g) == Some(target)
            && (if h.state.value.paused then g.state == h.state
                else g.state == Some(State(target, 1 - h.state.value.slot, Some(h.state.value.current), true)))
  {
    var state := h.state.value;
    var start := [Up(target, w.up), Smoke(target)];
    RollbackStart(h, target, w);
    if state.paused {
      assert start + [] == start;
    } else {
      var promote := Promote(State(target, SlotOf(h.releases, target).value, Some(state.current), true));
      AlwaysOne(Replay(h, start), promote, Permitted);
      AlwaysConcat(h, start, [promote], Permitted);
    }
  }

  lemma RollbackPromotes(h: Host, target: Sha, w: World)
    requires Safe(h) && h.state.Some? && Target(h.state.value) == Some(target) && w.up.ok && w.smokePasses
    ensures var t := Rollback(h, w);
            var g := Replay(h, t.effects);
            && Always(h, t.effects, Permitted) && Safe(g)
            && (if h.state.value.paused then g.state == h.state
                else g.state == Some(State(target, 1 - h.state.value.slot, Some(h.state.value.current), true)))
  {
    hide Replay, Always, SlotOf, Safe, Finish;
    var verified := Verifying(h, target, w);
    RollbackState(h, target, w);
    var g := Replay(h, verified);
    FinishEffects(g, target, w);
    OrderlyIsPermitted(g, Finish(g, target, w).effects);
    AlwaysConcat(h, verified, Finish(g, target, w).effects, Permitted);
    assert Rollback(h, w).effects == verified + Finish(g, target, w).effects;
  }

  lemma CommandEffects(h: Host, c: Command)
    requires Safe(h)
    ensures Always(h, Outcome(h, c).effects, Permitted)
    ensures !c.RollbackNow? ==> Always(h, Outcome(h, c).effects, Orderly)
  {
    match c
    case PollNow(w) =>
      PollEffects(h, w);
      OrderlyIsPermitted(h, Outcome(h, c).effects);
    case RollbackNow(w) =>
      RollbackEffects(h, w);
    case ResumeNow =>
      ResumeEffects(h);
      OrderlyIsPermitted(h, Outcome(h, c).effects);
    case ValidateNow(sha, w) =>
      ValidateEffects(h, sha, w);
      OrderlyIsPermitted(h, Outcome(h, c).effects);
  }

  // ----- Main results -----

  lemma DonePermitted(h: Host, a: Attempt)
    requires Safe(h)
    ensures Always(h, Done(h, a), Permitted) && Safe(Replay(h, Done(h, a)))
    ensures !a.command.RollbackNow? ==> Always(h, Done(h, a), Orderly)
  {
    var effects := Outcome(h, a.command).effects;
    CommandEffects(h, a.command);
    if a.survived < |effects| {
      assert effects == effects[..a.survived] + effects[a.survived..];
      AlwaysConcat(h, effects[..a.survived], effects[a.survived..], Permitted);
      AlwaysConcat(h, effects[..a.survived], effects[a.survived..], Orderly);
    }
    PermittedKeepsSafe(h, Done(h, a));
  }

  /**
    Safety over every sequence of commands, every failure and every crash: state.json always names verified, distinct
    releases in opposite slots, at every single effect, and no effect is a `down` of the release it names as current.
   */
  lemma {:induction false} DeployerSafety(h: Host, attempts: seq<Attempt>, next: Attempt)
    requires Safe(h)
    ensures var g := Operate(h, attempts);
            Safe(g) && Always(g, Done(g, next), Permitted)
    decreases |attempts|
  {
    if attempts == [] {
      DonePermitted(h, next);
    } else {
      DonePermitted(h, attempts[0]);
      DeployerSafety(Replay(h, Done(h, attempts[0])), attempts[1..], next);
    }
  }

  /**
    Slot exclusivity, from any state such runs reach: whenever poll or validate-source brings up a release other than
    current, nothing but current is running and current holds the other slot.
   */
  lemma SlotExclusivity(attempts: seq<Attempt>, next: Attempt)
    requires !next.command.RollbackNow?
    ensures var g := Operate(FRESH, attempts);
            Always(g, Done(g, next), Exclusive)
  {
    DeployerSafety(FRESH, attempts, next);
    var g := Operate(FRESH, attempts);
    DonePermitted(g, next);
    OrderlyIsExclusive(g, Done(g, next));
  }

  lemma {:induction false} OrderlyIsExclusive(h: Host, effects: seq<Effect>)
    requires Always(h, effects, Orderly)
    ensures Always(h, effects, Exclusive)
    decreases |effects|
  {
    if effects != [] {
      OrderlyIsExclusive(Apply(h, effects[0]), effects[1..]);
    }
  }

  /** Convergence: one whole poll in which nothing fails to stop and current comes up leaves exactly current running. */
  lemma PollConverges(attempts: seq<Attempt>, w: World)
    requires NothingFailsToStop(w)
    requires var g := Operate(FRESH, attempts); g.state.Some? ==> w.currentUp.ok
    ensures var g := Operate(FRESH, attempts);
            Settled(Replay(g, Poll(g, w).effects))
  {
    DeployerSafety(FRESH, attempts, Attempt(ResumeNow, 0));
    PollEffects(Operate(FRESH, attempts), w);
  }

  // ----- Pause, quarantine and promotion -----

  /** Moves nothing: no promotion, and nothing comes up but the release that is already current. */
  predicate KeepsState(h: Host, e: Effect) {
    !e.Promote? && (e.Up? ==> Some(e.sha) == Current(h))
  }

  lemma {:induction false} QuietKeepsState(h: Host, effects: seq<Effect>)
    requires forall e | e in effects :: e.Down? || e.Mark? || e.Smoke?
    ensures Always(h, effects, KeepsState) && Replay(h, effects).state == h.state
    ensures Replay(h, effects).releases == h.releases
    decreases |effects|
  {
    if effects != [] {
      QuietKeepsState(Apply(h, effects[0]), effects[1..]);
    }
  }

  lemma {:induction false} SweepIsQuiet(releases: seq<Release>, current: Option<Sha>, sweep: map<Sha, DownResult>)
    ensures forall e | e in Sweep(releases, current, sweep) :: e.Down?
  {
    if releases != [] {
      SweepIsQuiet(releases[1..], current, sweep);
    }
  }

  lemma {:induction false} KeptState(h: Host, effects: seq<Effect>)
    requires Always(h, effects, KeepsState)
    ensures Replay(h, effects).state == h.state
    decreases |effects|
  {
    if effects != [] {
      KeptState(Apply(h, effects[0]), effects[1..]);
    }
  }

  lemma RecoverKeepsState(h: Host, w: World)
    ensures Always(h, Recover(h, w), KeepsState)
  {
    var swept := Sweep(h.releases, Current(h), w.sweep);
    SweepIsQuiet(h.releases, Current(h), w.sweep);
    QuietKeepsState(h, swept);
    var h1 := Replay(h, swept);
    if h.state.Some? {
      var current := h.state.value.current;
      var up := Up(current, w.currentUp);
      var resolved := if w.currentUp.ok then ResolveFailure(h, current, w.resolveKept) else [];
      AlwaysOne(h1, up, KeepsState);
      QuietKeepsState(Apply(h1, up), resolved);
      AlwaysConcat(h1, [up], resolved, KeepsState);
      AlwaysConcat(h, swept, [up] + resolved, KeepsState);
    } else {
      assert swept + [] == swept;
    }
  }

  /**
    A poll keeps the state when it is paused, cannot read the head or the runs, or the head is not integrated, not
    eligible, already current or quarantined.
   */
  lemma PollWithoutCandidate(h: Host, w: World)
    requires Safe(h)
    requires
      || (h.state.Some? && h.state.value.paused) || w.head.None? || w.runs.None? || !w.integrated
      || !Eligible(w.runs.value, w.head.value) || Current(h) == w.head || Quarantined(h, w.head.value)
    ensures Always(h, Poll(h, w).effects, KeepsState)
  {
    RecoverKeepsState(h, w);
    RecoverEffects(h, w);
    assert Candidate(Replay(h, Recover(h, w)), w).None?;
    AlwaysConcat(h, Recover(h, w), [], KeepsState);
  }

  lemma FinishKeepsState(h: Host, current: Sha, w: World)
    ensures Always(h, Finish(h, current, w).effects, KeepsState)
  {
    var resolved := ResolveFailure(h, current, w.resolveLastKept);
    QuietKeepsState(h, resolved);
    var h1 := Replay(h, resolved);
    SweepIsQuiet(h1.releases, Some(current), w.sweepLast);
    QuietKeepsState(h1, Sweep(h1.releases, Some(current), w.sweepLast));
    AlwaysConcat(h, resolved, Sweep(h1.releases, Some(current), w.sweepLast), KeepsState);
  }

  lemma RepeatedRollbackKeepsState(h: Host, w: World)
    requires h.state.Some? && h.state.value.paused
    ensures Always(h, Rollback(h, w).effects, KeepsState)
    ensures Rollback(h, w).effects != [] && Rollback(h, w).effects[0] == Up(h.state.value.current, w.up)
  {
    var current := h.state.value.current;
    var up := Up(current, w.up);
    AlwaysOne(h, up, KeepsState);
    AlwaysTwo(h, up, Smoke(current), KeepsState);
    assert [up] + [] == [up] && [up, Smoke(current)] + [] == [up, Smoke(current)];
    var h2 := Replay(h, [up, Smoke(current)]);
    FinishKeepsState(h2, current, w);
    AlwaysConcat(h, [up, Smoke(current)], Finish(h2, current, w).effects, KeepsState);
  }

  lemma PausedAttempt(h: Host, a: Attempt)
    requires Safe(h) && h.state.Some? && h.state.value.paused && !a.command.ResumeNow?
    ensures Always(h, Done(h, a), KeepsState) && Replay(h, Done(h, a)).state == h.state
  {
    var effects := Outcome(h, a.command).effects;
    match a.command {
      case PollNow(w) => PollWithoutCandidate(h, w);
      case RollbackNow(w) => RepeatedRollbackKeepsState(h, w);
      case ValidateNow(_, _) =>
      case ResumeNow =>
    }
    if a.survived < |effects| {
      assert effects == effects[..a.survived] + effects[a.survived..];
      AlwaysConcat(h, effects[..a.survived], effects[a.survived..], KeepsState);
    }
    KeptState(h, Done(h, a));
  }

  /**
    Rollback pause: until `resume`, no sequence of polls, validations and further rollbacks, dying anywhere, changes
    state.json at all, and no release but the rolled-back-to one is ever started.
   */
  lemma {:induction false} RollbackPause(h: Host, attempts: seq<Attempt>, next: Attempt)
    requires Safe(h) && h.state.Some? && h.state.value.paused
    requires !next.command.ResumeNow? && forall a | a in attempts :: !a.command.ResumeNow?
    ensures var g := Operate(h, attempts);
            g.state == h.state && Always(g, Done(g, next), KeepsState)
    decreases |attempts|
  {
    if attempts == [] {
      PausedAttempt(h, next);
    } else {
      PausedAttempt(h, attempts[0]);
      DonePermitted(h, attempts[0]);
      RollbackPause(Replay(h, Done(h, attempts[0])), attempts[1..], next);
    }
  }

  /** Two successful rollbacks with a resume between them return to the release, slot and previous they started from. */
  lemma RollbackTwiceReturns(h: Host, there: World, back: World)
    requires Safe(h) && h.state.Some? && !h.state.value.paused && h.state.value.previous.Some?
    requires there.up.ok && there.smokePasses && back.up.ok && back.smokePasses
    ensures var away := Replay(h, Rollback(h, there).effects);
            var resumed := Replay(away, Resume(away).effects);
            var home := Replay(resumed, Rollback(resumed, back).effects);
            && away.state == Some(State(h.state.value.previous.value, 1 - h.state.value.slot, Current(h), true))
            && home.state == Some(h.state.value.(paused := true))
  {
    RollbackPromotes(h, h.state.value.previous.value, there);
    var away := Replay(h, Rollback(h, there).effects);
    ResumeEffects(away);
    ResumeState(away);
    var resumed := Replay(away, Resume(away).effects);
    RollbackPromotes(resumed, h.state.value.current, back);
  }

  lemma ResumeState(h: Host)
    requires h.state.Some?
    ensures Replay(h, Resume(h).effects).state == Some(h.state.value.(paused := false))
    ensures h.failure.Some? ==> Replay(h, Resume(h).effects).failure == Some(h.failure.value.(retryAllowed := true))
  {
    var promote := Promote(h.state.value.(paused := false));
    if h.failure.Some? {
      AlwaysTwo(h, promote, Mark(h.failure.value.(retryAllowed := true)), Permitted);
      assert Resume(h).effects == [promote, Mark(h.failure.value.(retryAllowed := true))];
    } else {
      AlwaysOne(h, promote, Permitted);
      assert Resume(h).effects == [promote];
    }
  }

  /** Every check a poll made before it promoted, all of them about one and the same revision. */
  predicate Verified(h: Host, w: World) {
    && w.head.Some? && w.integrated && w.runs.Some? && Eligible(w.runs.value, w.head.value)
    && w.fetched == w.head && w.headAgain == w.head && w.headLast == w.head
    && w.built && w.up.ok && w.smokePasses
    && Current(h) != w.head && !(h.state.Some? && h.state.value.paused) && !Quarantined(h, w.head.value)
  }

  /** The candidate's directory exists in the free slot, or is copied now. */
  predicate Placeable(h: Host, sha: Sha, w: World) {
    match SlotOf(h.releases, sha)
    case Some(slot) => slot == NextSlot(h)
    case None => w.copied
  }

  lemma DeployPromotes(h: Host, sha: Sha, slot: int, expected: Option<Sha>, w: World)
    requires Startable(h, sha) && slot == NextSlot(h)
    ensures var g := Replay(h, Deploy(h, sha, slot, expected, w).effects);
            g.state == if w.built && w.up.ok && w.smokePasses && (expected.None? || w.headLast == expected)
                       then Some(State(sha, slot, Current(h), false)) else h.state
  {
    if !w.built {
      RecordFailureEffects(h, sha, true, w);
    } else if !w.up.ok || !w.smokePasses {
      FailedStart(h, sha, true, false, w);
      assert [Up(sha, w.up)] + [] == [Up(sha, w.up)];
    } else if expected.Some? && w.headLast != expected {
      FailedStart(h, sha, false, true, w);
      assert [Up(sha, w.up)] + [Smoke(sha)] == [Up(sha, w.up), Smoke(sha)];
    } else {
      var promoted := [Up(sha, w.up), Smoke(sha), Promote(State(sha, slot, Current(h), false))];
      PromoteEffects(h, sha, slot, w);
      var h1 := Replay(h, promoted);
      FinishEffects(h1, sha, w);
      AlwaysConcat(h, promoted, Finish(h1, sha, w).effects, Orderly);
    }
  }

  lemma PrepareAndDeployPromotes(h: Host, sha: Sha, expected: Option<Sha>, w: World)
    requires Safe(h) && OnlyCurrentRuns(h) && Some(sha) != Current(h)
    ensures var g := Replay(h, PrepareAndDeploy(h, sha, expected, w).effects);
            g.state == if && Placeable(h, sha, w)
                          && (expected.None? || (w.headAgain == expected && w.headLast == expected))
                          && w.built && w.up.ok && w.smokePasses
                       then Some(State(sha, NextSlot(h), Current(h), false)) else h.state
  {
    var slot, stored := NextSlot(h), SlotOf(h.releases, sha);
    if !(stored.Some? && stored.value != slot) && !(stored.None? && !w.copied) {
      var prepared := if stored.Some? then [] else [Prepare(sha, slot)];
      if stored.None? {
        PrepareEffects(h, sha, slot);
      }
      var h1 := Replay(h, prepared);
      if expected.None? || w.headAgain == expected {
        DeployPromotes(h1, sha, slot, expected, w);
        AlwaysConcat(h, prepared, Deploy(h1, sha, slot, expected, w).effects, Orderly);
      }
    }
  }

  /** An operator's validation promotes exactly a new label that was placed, built, started and passed smoke. */
  lemma ValidationPromotesExactly(h: Host, sha: Sha, w: World)
    requires Safe(h)
    ensures var g := Replay(h, ValidateSource(h, sha, w).effects);
            g.state == if && !(h.state.Some? && h.state.value.paused) && SlotOf(h.releases, sha).None? && w.copied
                          && AllStopped(h.releases, Current(h), w.sweepAgain) && !w.copiesLeftAgain
                          && w.built && w.up.ok && w.smokePasses
                       then Some(State(sha, NextSlot(h), Current(h), false)) else h.state
  {
    hide PrepareAndDeploy, AllStopped;
    assert SlotOf(h.releases, sha).None? ==> Some(sha) != Current(h);
    hide Safe, OnlyCurrentRuns, Sweep, Always;
    if !(h.state.Some? && h.state.value.paused) && SlotOf(h.releases, sha).None? {
      ReconcileEffects(h, w.sweepAgain, w.copiesLeftAgain);
      var swept := Reconcile(h, Current(h), w.sweepAgain, w.copiesLeftAgain);
      var h1 := Replay(h, swept.effects);
      if swept.ok {
        AlwaysConcat(h, swept.effects, PrepareAndDeploy(h1, sha, None, w).effects, Orderly);
        PrepareAndDeployPromotes(h1, sha, None, w);
      }
    }
  }

  /**
    A rollback goes to the previous release, in its slot, remembers where it came from and pauses, exactly when that
    release came up and passed smoke; repeated or failed, it changes nothing of the state.
   */
  lemma RollbackGoesBackExactly(h: Host, w: World)
    requires Safe(h)
    ensures var g := Replay(h, Rollback(h, w).effects);
            g.state == if && h.state.Some? && !h.state.value.paused && h.state.value.previous.Some?
                          && w.up.ok && w.smokePasses
                       then Some(State(h.state.value.previous.value, 1 - h.state.value.slot, Current(h), true))
                       else h.state
  {
    if h.state.Some? && Target(h.state.value).Some? {
      var state := h.state.value;
      var target := Target(state).value;
      RollbackStart(h, target, w);
      if w.up.ok && w.smokePasses {
        RollbackPromotes(h, target, w);
      } else if state.paused {
        assert [Up(target, w.up)] + [] == [Up(target, w.up)];
      } else {
        RecordFailureEffects(Replay(h, [Up(target, w.up)]), target, true, w);
        AlwaysConcat(h, [Up(target, w.up)], RecordFailure(target, true, w), Permitted);
      }
    }
  }

  lemma AdvancePromotes(h: Host, w: World)
    requires Safe(h)
    ensures var g := Replay(h, Advance(h, w).effects);
            g.state == if Verified(h, w) && Placeable(h, w.head.value, w)
                          && AllStopped(h.releases, Current(h), w.sweepAgain) && !w.copiesLeftAgain
                       then Some(State(w.head.value, NextSlot(h), Current(h), false)) else h.state
  {
    var candidate := Candidate(h, w);
    if candidate.Some? {
      ReconcileEffects(h, w.sweepAgain, w.copiesLeftAgain);
      var swept := Reconcile(h, Current(h), w.sweepAgain, w.copiesLeftAgain);
      var h1 := Replay(h, swept.effects);
      if swept.ok && w.fetched == candidate {
        AlwaysConcat(h, swept.effects, PrepareAndDeploy(h1, candidate.value, candidate, w).effects, Orderly);
        PrepareAndDeployPromotes(h1, candidate.value, candidate, w);
      }
    }
  }

  /** The checks read nothing that recovering current changes. */
  lemma SameChecks(h: Host, g: Host, w: World)
    requires g.state == h.state && g.releases == h.releases && (h.failure.Some? <==> g.failure.Some?)
    requires h.failure.Some? ==> g.failure.value.(resolved := true) == h.failure.value.(resolved := true)
    ensures Verified(g, w) == Verified(h, w) && Current(g) == Current(h) && NextSlot(g) == NextSlot(h)
    ensures forall sha :: Placeable(g, sha, w) == Placeable(h, sha, w)
  {
    hide Eligible, SlotOf;
  }

  /**
    A poll promotes exactly when every check passed for one and the same eligible revision and the other slot
    was certainly free, and then to that revision, remembering what was current.
   */
  lemma PollPromotesExactlyVerified(h: Host, w: World)
    requires Safe(h)
    ensures var g := Replay(h, Poll(h, w).effects);
            g.state == if Verified(h, w) && Placeable(h, w.head.value, w)
                          && AllStopped(h.releases, Current(h), w.sweepAgain) && !w.copiesLeftAgain
                       then Some(State(w.head.value, NextSlot(h), Current(h), false)) else h.state
  {
    var recovered := Recover(h, w);
    RecoverEffects(h, w);
    var g := Replay(h, recovered);
    hide Recover, Replay, Always, Safe, Advance, Eligible, AllStopped, SlotOf;
    AdvancePromotes(g, w);
    AlwaysConcat(h, recovered, Advance(g, w).effects, Orderly);
    SameChecks(h, g, w);
    hide Verified, Placeable;
    assert Poll(h, w).effects == recovered + Advance(g, w).effects;
  }

  // ----- Where exclusivity stops -----

  /** A rollback does not clean up first: a candidate that could not be stopped still occupies the slot it reuses. */
  lemma RollbackMayShareSlot(h: Host, sha: Sha, w: World, later: World)
    requires Safe(h) && Settled(h) && h.state.Some? && !h.state.value.paused && h.state.value.previous.Some?
    requires SlotOf(h.releases, sha).None?
    requires NothingFailsToStop(w.(candidateDown := Stopped)) && !w.copiesLeftAgain && w.copied && w.built
    requires w.up == UpResult(false, true) && w.candidateDown == FailedRunning
    ensures var g := Replay(h, ValidateSource(h, sha, w).effects);
            var previous := h.state.value.previous.value;
            && sha in g.running && SlotOf(g.releases, sha) == SlotOf(g.releases, previous)
            && Rollback(g, later).effects != [] && Rollback(g, later).effects[0] == Up(previous, later.up)
            && !Exclusive(g, Rollback(g, later).effects[0])
  {
    var swept := Reconcile(h, Current(h), w.sweepAgain, w.copiesLeftAgain);
    ReconcileEffects(h, w.sweepAgain, w.copiesLeftAgain);
    var h1 := Replay(h, swept.effects);
    FailedCandidateStays(h1, sha, w);
    hide Replay, Always, SlotOf, Safe, PrepareAndDeploy;
    var rest := PrepareAndDeploy(h1, sha, None, w).effects;
    AlwaysConcat(h, swept.effects, rest, Orderly);
    assert ValidateSource(h, sha, w).effects == swept.effects + rest;
  }

  /** The candidate fails to start, half of it runs, and it cannot be stopped. */
  lemma FailedCandidateStays(h: Host, sha: Sha, w: World)
    requires Safe(h) && h.state.Some? && SlotOf(h.releases, sha).None?
    requires w.copied && w.built && w.up == UpResult(false, true) && w.candidateDown == FailedRunning
    ensures var g := Replay(h, PrepareAndDeploy(h, sha, None, w).effects);
            && sha in g.running && g.state == h.state && SlotOf(g.releases, sha) == Some(NextSlot(h))
            && forall x | SlotOf(h.releases, x).Some? :: SlotOf(g.releases, x) == SlotOf(h.releases, x)
  {
    var slot := NextSlot(h);
    PrepareEffects(h, sha, slot);
    var h1 := Replay(h, [Prepare(sha, slot)]);
    AlwaysOne(h, Prepare(sha, slot), Orderly);
    forall x | SlotOf(h.releases, x).Some?
      ensures SlotOf(h1.releases, x) == SlotOf(h.releases, x)
    {
      SlotAfterInsert(h.releases, Release(sha, slot), x);
    }
    AlwaysOne(h1, Up(sha, w.up), Permitted);
    var h2 := Replay(h1, [Up(sha, w.up)]);
    KnownStaysSafe(h1, h2, sha);
    RecordFailureEffects(h2, sha, true, w);
    hide SlotOf, Safe, RecordFailure;
    AlwaysConcat(h1, [Up(sha, w.up)], RecordFailure(sha, true, w), Orderly);
    AlwaysConcat(h, [Prepare(sha, slot)], [Up(sha, w.up)] + RecordFailure(sha, true, w), Orderly);
  }

  lemma KnownStaysSafe(h: Host, g: Host, sha: Sha)
    requires Safe(h) && Known(h, sha) && g == h.(running := h.running + {sha})
    ensures Safe(g)
  {
  }
}
