/**
  When a rollback of the deployer (tools/cd/deploy.py) starts its release beside nothing but current: it does not clean
  up first, so that depends on what the commands before it left running.
 */
module RollbackExclusivity {
  import opened Outcomes
  import opened Deployer

  /** A first rollback starts its release as its first effect, and does so exclusively when only current runs. */
  lemma FirstEffect(h: Host, w: World)
    requires Safe(h) && h.state.Some? && !h.state.value.paused && h.state.value.previous.Some?
    ensures Rollback(h, w).effects != []
    ensures Exclusive(h, Rollback(h, w).effects[0]) <==> OnlyCurrentRuns(h)
  {
  }

  // ----- Whole histories -----

  /** Every effect of these attempts, in order. */
  function History(h: Host, attempts: seq<Attempt>): seq<Effect>
    decreases |attempts|
  {
    if attempts == [] then []
    else Done(h, attempts[0]) + History(Replay(h, Done(h, attempts[0])), attempts[1..])
  }

  lemma {:induction false} HistoryReplays(h: Host, attempts: seq<Attempt>)
    ensures Replay(h, History(h, attempts)) == Operate(h, attempts)
    decreases |attempts|
  {
    if attempts != [] {
      var first := Done(h, attempts[0]);
      hide Done;
      HistoryReplays(Replay(h, first), attempts[1..]);
      AlwaysConcat(h, first, History(Replay(h, first), attempts[1..]), Permitted);
    }
  }

  predicate CameUp(e: Effect, sha: Sha) {
    e.Up? && e.sha == sha && (e.outcome.ok || e.outcome.started)
  }

  predicate WentDown(e: Effect, sha: Sha) {
    e.Down? && e.sha == sha && e.result != FailedRunning
  }

  /** Some `up` left the release running and no later `down` stopped it. */
  predicate StillUp(effects: seq<Effect>, sha: Sha) {
    exists i | 0 <= i < |effects| ::
      CameUp(effects[i], sha) && forall j | i < j < |effects| :: !WentDown(effects[j], sha)
  }

  lemma {:induction false} RunningExactly(h: Host, effects: seq<Effect>, sha: Sha)
    ensures sha in Replay(h, effects).running
            <==> StillUp(effects, sha)
                 || (sha in h.running && forall j | 0 <= j < |effects| :: !WentDown(effects[j], sha))
    decreases |effects|
  {
    if effects != [] {
      var rest := effects[1..];
      RunningExactly(Apply(h, effects[0]), rest, sha);
      hide Replay;
      assert forall j | 0 <= j < |rest| :: rest[j] == effects[j + 1];
      LaterUp(effects, sha);
    }
  }

  lemma LaterUp(effects: seq<Effect>, sha: Sha)
    requires effects != []
    ensures StillUp(effects, sha)
            <==> StillUp(effects[1..], sha)
                 || (CameUp(effects[0], sha) && forall j | 0 < j < |effects| :: !WentDown(effects[j], sha))
  {
    var rest := effects[1..];
    assert forall j | 0 <= j < |rest| :: rest[j] == effects[j + 1];
    if StillUp(rest, sha) {
      var i :| 0 <= i < |rest| && CameUp(rest[i], sha) && forall j | i < j < |rest| :: !WentDown(rest[j], sha);
      assert CameUp(effects[i + 1], sha);
      assert forall j | i + 1 < j < |effects| :: effects[j] == rest[j - 1];
    }
    if StillUp(effects, sha) {
      var i :| 0 <= i < |effects| && CameUp(effects[i], sha)
               && forall j | i < j < |effects| :: !WentDown(effects[j], sha);
      if i > 0 {
        assert CameUp(rest[i - 1], sha);
      }
    }
  }

  /**
    After any attempts, dying anywhere, a first rollback is exclusive if and only if every other release that an `up`
    left running has since been stopped by a `down`.
   */
  lemma RollbackExclusiveByHistory(attempts: seq<Attempt>, w: World)
    requires var g := Operate(FRESH, attempts); g.state.Some? && !g.state.value.paused && g.state.value.previous.Some?
    ensures var g := Operate(FRESH, attempts);
            && Rollback(g, w).effects != []
            && (Exclusive(g, Rollback(g, w).effects[0])
                <==> forall sha | StillUp(History(FRESH, attempts), sha) :: sha == g.state.value.current)
  {
    var g := Operate(FRESH, attempts);
    DeployerSafety(FRESH, attempts, Attempt(ResumeNow, 0));
    HistoryReplays(FRESH, attempts);
    FirstEffect(g, w);
    forall sha: Sha
      ensures sha in g.running <==> StillUp(History(FRESH, attempts), sha)
    {
      RunningExactly(FRESH, History(FRESH, attempts), sha);
    }
    hide Rollback, StillUp, History, Operate, Safe;
  }

  // ----- One command, read from its answers -----

  lemma {:induction false} SweepRunning(h: Host, releases: seq<Release>, current: Option<Sha>,
                                        sweep: map<Sha, DownResult>, sha: Sha)
    ensures sha in Replay(h, Sweep(releases, current, sweep)).running
            <==> sha in h.running
                 && !(Some(sha) != current && SlotOf(releases, sha).Some? && Result(sweep, sha) != FailedRunning)
    decreases |releases|
  {
    if releases != [] {
      var first, rest := releases[0].sha, Sweep(releases[1..], current, sweep);
      var down := Down(first, Result(sweep, first));
      if Some(first) == current {
        assert [] + rest == rest;
        SweepRunning(h, releases[1..], current, sweep, sha);
      } else {
        SweepRunning(Apply(h, down), releases[1..], current, sweep, sha);
        AlwaysConcat(h, [down], rest, Permitted);
        AlwaysOne(h, down, Permitted);
      }
    }
  }

  /** A start that left containers which could not be stopped again. */
  predicate LeavesCandidate(w: World) {
    (w.up.ok || w.up.started) && w.candidateDown == FailedRunning
  }

  /** A release that was running when it stopped being current, and could not be stopped. */
  predicate LeavesOld(h: Host, running: bool, w: World) {
    h.state.Some? && running && Result(w.sweepLast, h.state.value.current) == FailedRunning
  }

  predicate CurrentRuns(h: Host) {
    h.state.Some? && h.state.value.current in h.running
  }

  /** `deploy` of a startable candidate leaves another release than the then current one running. */
  predicate DeployLeaves(h: Host, expected: Option<Sha>, running: bool, w: World) {
    w.built && if w.up.ok && w.smokePasses && (expected.None? || w.headLast == expected) then LeavesOld(h, running, w)
               else LeavesCandidate(w)
  }

  lemma FinishRunning(h: Host, current: Sha, w: World, sha: Sha)
    requires Safe(h) && Current(h) == Some(current)
    ensures var g := Replay(h, Finish(h, current, w).effects);
            && g.state == h.state
            && (sha in g.running <==> sha in h.running && (sha == current || Result(w.sweepLast, sha) == FailedRunning))
  {
    var resolved := ResolveFailure(h, current, w.resolveLastKept);
    ResolveEffects(h, current, w.resolveLastKept);
    FinishEffects(h, current, w);
    var h1 := Replay(h, resolved);
    AlwaysConcat(h, resolved, Sweep(h1.releases, Some(current), w.sweepLast), Permitted);
    SweepRunning(h1, h1.releases, Some(current), w.sweepLast, sha);
    assert sha in h.running ==> Known(h, sha);
    hide Replay, Safe;
  }

  lemma FailureRunning(h: Host, sha: Sha, permanent: bool, smoked: bool, w: World)
    requires Startable(h, sha)
    ensures var started := [Up(sha, w.up)] + if smoked then [Smoke(sha)] else [];
            var g := Replay(h, started + RecordFailure(sha, permanent, w));
            && g.state == h.state && (OnlyCurrentRuns(g) <==> !LeavesCandidate(w))
  {
    var up, smoke := [Up(sha, w.up)], if smoked then [Smoke(sha)] else [];
    StartEffects(h, sha, w);
    var h1 := Replay(h, up);
    AlwaysOne(h, Up(sha, w.up), Permitted);
    AlwaysOne(h1, Smoke(sha), Permitted);
    var h2 := Replay(h1, smoke);
    assert h2 == h1.(smoked := h2.smoked);
    assert Safe(h2);
    RecordFailureEffects(h2, sha, permanent, w);
    AlwaysConcat(h, up, smoke, Permitted);
    AlwaysConcat(h, up + smoke, RecordFailure(sha, permanent, w), Permitted);
    hide Replay, Safe, RecordFailure;
    assert sha !in h.running;
  }

  lemma DeployLeavesExactly(h: Host, sha: Sha, slot: int, expected: Option<Sha>, w: World)
    requires Startable(h, sha) && slot == NextSlot(h)
    ensures OnlyCurrentRuns(Replay(h, Deploy(h, sha, slot, expected, w).effects))
            <==> !DeployLeaves(h, expected, CurrentRuns(h), w)
  {
    if !w.built {
      RecordFailureEffects(h, sha, true, w);
    } else if !w.up.ok || !w.smokePasses {
      FailureRunning(h, sha, true, false, w);
      assert [Up(sha, w.up)] + [] == [Up(sha, w.up)];
    } else if expected.Some? && w.headLast != expected {
      FailureRunning(h, sha, false, true, w);
      assert [Up(sha, w.up)] + [Smoke(sha)] == [Up(sha, w.up), Smoke(sha)];
    } else {
      PromotionLeaves(h, sha, slot, w);
    }
  }

  lemma PromotionLeaves(h: Host, sha: Sha, slot: int, w: World)
    requires Startable(h, sha) && slot == NextSlot(h) && w.up.ok
    ensures var promoted := [Up(sha, w.up), Smoke(sha), Promote(State(sha, slot, Current(h), false))];
            OnlyCurrentRuns(Replay(h, After(promoted, Finish(Replay(h, promoted), sha, w)).effects))
            <==> !LeavesOld(h, CurrentRuns(h), w)
  {
    var promoted := [Up(sha, w.up), Smoke(sha), Promote(State(sha, slot, Current(h), false))];
    PromoteEffects(h, sha, slot, w);
    var h1 := Replay(h, promoted);
    AlwaysConcat(h, promoted, Finish(h1, sha, w).effects, Permitted);
    var g := Replay(h1, Finish(h1, sha, w).effects);
    forall r: Sha
      ensures g.state == h1.state
      ensures r in g.running <==> r in h1.running && (r == sha || Result(w.sweepLast, r) == FailedRunning)
    {
      FinishRunning(h1, sha, w, r);
    }
    hide Replay, Safe, Finish;
    if LeavesOld(h, CurrentRuns(h), w) {
      assert h.state.value.current in g.running;
    }
  }

  /** With only current running, cleaning up stops nothing that runs. */
  lemma CleanSweep(h: Host, sweep: map<Sha, DownResult>, copiesLeft: bool)
    requires Safe(h) && OnlyCurrentRuns(h)
    ensures Replay(h, Reconcile(h, Current(h), sweep, copiesLeft).effects) == h
  {
    var effects := Sweep(h.releases, Current(h), sweep);
    ReconcileEffects(h, sweep, copiesLeft);
    var g := Replay(h, effects);
    forall sha: Sha
      ensures sha in g.running <==> sha in h.running
    {
      SweepRunning(h, h.releases, Current(h), sweep, sha);
    }
    assert g.running == h.running;
  }

  /** The candidate is brought up, as far as the revision and its place are concerned. */
  predicate Reaches(h: Host, sha: Sha, expected: Option<Sha>, w: World) {
    Placeable(h, sha, w) && (expected.None? || w.headAgain == expected)
  }

  lemma PrepareLeaves(h: Host, sha: Sha, expected: Option<Sha>, w: World)
    requires Safe(h) && OnlyCurrentRuns(h) && Some(sha) != Current(h)
    ensures OnlyCurrentRuns(Replay(h, PrepareAndDeploy(h, sha, expected, w).effects))
            <==> !(Reaches(h, sha, expected, w) && DeployLeaves(h, expected, CurrentRuns(h), w))
  {
    var slot, stored := NextSlot(h), SlotOf(h.releases, sha);
    if Placeable(h, sha, w) {
      var prepared := if stored.Some? then [] else [Prepare(sha, slot)];
      if stored.None? {
        PrepareEffects(h, sha, slot);
      }
      var h1 := Replay(h, prepared);
      if expected.None? || w.headAgain == expected {
        DeployLeavesExactly(h1, sha, slot, expected, w);
        AlwaysConcat(h, prepared, Deploy(h1, sha, slot, expected, w).effects, Permitted);
      }
    }
  }

  /** The revision a poll starts, when every check before its start passes and the other slot is certainly free. */
  predicate Starts(h: Host, w: World) {
    && Candidate(h, w).Some? && AllStopped(h.releases, Current(h), w.sweepAgain) && !w.copiesLeftAgain
    && w.fetched == w.head && Reaches(h, w.head.value, w.head, w)
  }

  lemma AdvanceLeaves(h: Host, w: World)
    requires Safe(h) && OnlyCurrentRuns(h)
    ensures OnlyCurrentRuns(Replay(h, Advance(h, w).effects))
            <==> !(Starts(h, w) && DeployLeaves(h, w.head, CurrentRuns(h), w))
  {
    var candidate := Candidate(h, w);
    if candidate.Some? {
      CleanSweep(h, w.sweepAgain, w.copiesLeftAgain);
      var swept := Reconcile(h, Current(h), w.sweepAgain, w.copiesLeftAgain);
      if swept.ok && w.fetched == candidate {
        PrepareLeaves(h, candidate.value, candidate, w);
        AlwaysConcat(h, swept.effects, PrepareAndDeploy(h, candidate.value, candidate, w).effects, Permitted);
      }
    }
  }

  lemma RecoverRunning(h: Host, w: World)
    requires Safe(h) && OnlyCurrentRuns(h)
    ensures var g := Replay(h, Recover(h, w));
            && OnlyCurrentRuns(g)
            && (CurrentRuns(g) <==> CurrentRuns(h) || (h.state.Some? && (w.currentUp.ok || w.currentUp.started)))
  {
    CleanSweep(h, w.sweep, w.copiesLeft);
    var swept := Sweep(h.releases, Current(h), w.sweep);
    if h.state.Some? {
      var current := h.state.value.current;
      var up := [Up(current, w.currentUp)];
      var h1 := Replay(h, up);
      AlwaysOne(h, up[0], Permitted);
      var resolved := if w.currentUp.ok then ResolveFailure(h1, current, w.resolveKept) else [];
      assert ResolveFailure(h, current, w.resolveKept) == ResolveFailure(h1, current, w.resolveKept);
      assert Safe(h1);
      ResolveEffects(h1, current, w.resolveKept);
      AlwaysConcat(h, up, resolved, Permitted);
      AlwaysConcat(h, swept, up + resolved, Permitted);
    } else {
      assert swept + [] == swept;
    }
  }

  /** A poll first brings current up again; whether it runs decides what a promotion can leave behind. */
  predicate PollLeaves(h: Host, w: World) {
    && Starts(h, w)
    && DeployLeaves(h, w.head, CurrentRuns(h) || (h.state.Some? && (w.currentUp.ok || w.currentUp.started)), w)
  }

  lemma PollLeavesExactly(h: Host, w: World)
    requires Safe(h) && OnlyCurrentRuns(h)
    ensures OnlyCurrentRuns(Replay(h, Poll(h, w).effects)) <==> !PollLeaves(h, w)
  {
    var recovered := Recover(h, w);
    var g := Replay(h, recovered);
    RecoverRunning(h, w);
    RecoverEffects(h, w);
    SameChecks(h, g, w);
    AlwaysConcat(h, recovered, Advance(g, w).effects, Permitted);
    AdvanceLeaves(g, w);
    hide Replay, Safe, Recover, Advance, Always, Eligible, SlotOf, AllStopped, OnlyCurrentRuns;
    assert Candidate(g, w) == Candidate(h, w);
  }

  predicate ValidateLeaves(h: Host, sha: Sha, w: World) {
    && !(h.state.Some? && h.state.value.paused) && SlotOf(h.releases, sha).None?
    && AllStopped(h.releases, Current(h), w.sweepAgain) && !w.copiesLeftAgain
    && Reaches(h, sha, None, w) && DeployLeaves(h, None, CurrentRuns(h), w)
  }

  lemma ValidateLeavesExactly(h: Host, sha: Sha, w: World)
    requires Safe(h) && OnlyCurrentRuns(h)
    ensures OnlyCurrentRuns(Replay(h, ValidateSource(h, sha, w).effects)) <==> !ValidateLeaves(h, sha, w)
  {
    if !(h.state.Some? && h.state.value.paused) && SlotOf(h.releases, sha).None? {
      CleanSweep(h, w.sweepAgain, w.copiesLeftAgain);
      var swept := Reconcile(h, Current(h), w.sweepAgain, w.copiesLeftAgain);
      if swept.ok {
        PrepareLeaves(h, sha, None, w);
        AlwaysConcat(h, swept.effects, PrepareAndDeploy(h, sha, None, w).effects, Permitted);
      }
    }
  }

  predicate RollbackLeaves(h: Host, w: World) {
    && h.state.Some? && !h.state.value.paused && h.state.value.previous.Some?
    && if w.up.ok && w.smokePasses then LeavesOld(h, CurrentRuns(h), w) else LeavesCandidate(w)
  }

  lemma FailedRollbackLeaves(h: Host, target: Sha, w: World)
    requires Safe(h) && OnlyCurrentRuns(h) && h.state.Some? && h.state.value.previous == Some(target)
    ensures OnlyCurrentRuns(Replay(h, [Up(target, w.up)] + RecordFailure(target, true, w))) <==> !LeavesCandidate(w)
  {
    assert Startable(h, target);
    FailureRunning(h, target, true, false, w);
    assert [Up(target, w.up)] + [] == [Up(target, w.up)];
  }

  lemma VerifyingRunning(h: Host, target: Sha, w: World)
    requires Safe(h) && h.state.Some? && Target(h.state.value) == Some(target) && w.up.ok
    ensures Replay(h, Verifying(h, target, w)).running == h.running + {target}
  {
    var start := [Up(target, w.up), Smoke(target)];
    RollbackState(h, target, w);
    AlwaysTwo(h, start[0], start[1], Permitted);
    if h.state.value.paused {
      assert start + [] == start;
    } else {
      var promote := Promote(State(target, SlotOf(h.releases, target).value, Some(h.state.value.current), true));
      AlwaysOne(Replay(h, start), promote, Permitted);
      AlwaysConcat(h, start, [promote], Permitted);
    }
  }

  lemma SuccessfulRollbackLeaves(h: Host, target: Sha, w: World)
    requires Safe(h) && OnlyCurrentRuns(h) && h.state.Some? && Target(h.state.value) == Some(target)
    requires w.up.ok && w.smokePasses
    ensures OnlyCurrentRuns(Replay(h, Rollback(h, w).effects)) <==> !RollbackLeaves(h, w)
  {
    var verified := Verifying(h, target, w);
    RollbackState(h, target, w);
    VerifyingRunning(h, target, w);
    var h1 := Replay(h, verified);
    AlwaysConcat(h, verified, Finish(h1, target, w).effects, Permitted);
    assert Rollback(h, w).effects == verified + Finish(h1, target, w).effects;
    var g := Replay(h1, Finish(h1, target, w).effects);
    forall r: Sha
      ensures g.state == h1.state
      ensures r in g.running <==> r in h1.running && (r == target || Result(w.sweepLast, r) == FailedRunning)
    {
      FinishRunning(h1, target, w, r);
    }
    assert h.state.value.paused || h.state.value.previous == Some(target);
    assert !h.state.value.paused ==> h.state.value.current != target;
    hide Replay, Safe, Finish, Rollback, Verifying;
    if RollbackLeaves(h, w) {
      assert h.state.value.current in g.running;
    }
  }

  lemma RollbackLeavesExactly(h: Host, w: World)
    requires Safe(h) && OnlyCurrentRuns(h)
    ensures OnlyCurrentRuns(Replay(h, Rollback(h, w).effects)) <==> !RollbackLeaves(h, w)
  {
    if h.state.Some? && Target(h.state.value).Some? {
      var target := Target(h.state.value).value;
      if w.up.ok && w.smokePasses {
        SuccessfulRollbackLeaves(h, target, w);
      } else if h.state.value.paused {
        AlwaysOne(h, Up(target, w.up), Permitted);
        assert [Up(target, w.up)] + [] == [Up(target, w.up)];
      } else {
        FailedRollbackLeaves(h, target, w);
      }
    }
  }

  /** What a whole command leaves running beside the release that is current afterwards, read from its answers. */
  predicate Leaves(h: Host, c: Command) {
    match c
    case PollNow(w) => PollLeaves(h, w)
    case RollbackNow(w) => RollbackLeaves(h, w)
    case ResumeNow => false
    case ValidateNow(sha, w) => ValidateLeaves(h, sha, w)
  }

  lemma LeavesExactly(h: Host, c: Command)
    requires Safe(h) && OnlyCurrentRuns(h)
    ensures OnlyCurrentRuns(Replay(h, Outcome(h, c).effects)) <==> !Leaves(h, c)
  {
    match c
    case PollNow(w) => PollLeavesExactly(h, w);
    case RollbackNow(w) => RollbackLeavesExactly(h, w);
    case ValidateNow(sha, w) => ValidateLeavesExactly(h, sha, w);
    case ResumeNow =>
      if h.state.Some? {
        ResumeState(h);
      }
      ResumeRunning(h);
  }

  lemma ResumeRunning(h: Host)
    ensures Replay(h, Resume(h).effects).running == h.running
    ensures Current(Replay(h, Resume(h).effects)) == Current(h)
  {
    var first := if h.state.Some? then [Promote(h.state.value.(paused := false))] else [];
    var last := if h.failure.Some? then [Mark(h.failure.value.(retryAllowed := true))] else [];
    if h.state.Some? {
      AlwaysOne(h, first[0], Permitted);
    }
    if h.failure.Some? {
      AlwaysOne(Replay(h, first), last[0], Permitted);
    }
    AlwaysConcat(h, first, last, Permitted);
  }

  /**
    After a whole command on a host where only current ran, a first rollback is exclusive if and only if the command did
    not leave its candidate, or the release it replaced, running: a failed or overtaken start that could not be stopped,
    or a promotion whose last cleanup could not stop the old release.
   */
  lemma RollbackExclusiveExactly(h: Host, c: Command, w: World)
    requires Safe(h) && OnlyCurrentRuns(h)
    requires var g := Replay(h, Outcome(h, c).effects);
             g.state.Some? && !g.state.value.paused && g.state.value.previous.Some?
    ensures var g := Replay(h, Outcome(h, c).effects);
            && Rollback(g, w).effects != []
            && (Exclusive(g, Rollback(g, w).effects[0]) <==> !Leaves(h, c))
  {
    CommandEffects(h, c);
    PermittedKeepsSafe(h, Outcome(h, c).effects);
    LeavesExactly(h, c);
    FirstEffect(Replay(h, Outcome(h, c).effects), w);
    hide Outcome, Replay, Leaves, Rollback;
  }
}
