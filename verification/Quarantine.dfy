/**
  The quarantine of the deployer (tools/cd/deploy.py): a revision that failed is marked, and a marked revision is not
  tried again until an operator resumes.
 */
module Quarantine {
  import opened Outcomes
  import opened Deployer
  import opened RollbackExclusivity

  /** The candidate could not be built, did not come up, or came up and failed its smoke test. */
  predicate FailsToStart(w: World) {
    !w.built || !w.up.ok || !w.smokePasses
  }

  /** At least one writing of the marker survived: before the stop or, when the stop failed, after it. */
  predicate MarkKept(w: World) {
    w.markKept || (w.candidateDown != Stopped && w.markAgainKept)
  }

  lemma MarkerAfter(h: Host, sha: Sha, permanent: bool, w: World)
    ensures var g := Replay(h, RecordFailure(sha, permanent, w));
            && g.state == h.state
            && g.failure == (if permanent && MarkKept(w) then Some(Failure(sha, false, false)) else h.failure)
            && g.running == if w.candidateDown == FailedRunning then h.running else h.running - {sha}
  {
    var mark := Mark(Failure(sha, false, false));
    var first := if permanent && w.markKept then [mark] else [];
    var down := [Down(sha, w.candidateDown)];
    var last := if permanent && w.candidateDown != Stopped && w.markAgainKept then [mark] else [];
    AlwaysOne(h, mark, Permitted);
    var h1 := Replay(h, first);
    AlwaysOne(h1, down[0], Permitted);
    var h2 := Apply(h1, down[0]);
    AlwaysOne(h2, mark, Permitted);
    AlwaysConcat(h, first, down, Permitted);
    AlwaysConcat(h, first + down, last, Permitted);
  }

  lemma MarkerAfterStart(h: Host, sha: Sha, permanent: bool, smoked: bool, w: World)
    ensures var started := [Up(sha, w.up)] + if smoked then [Smoke(sha)] else [];
            var g := Replay(h, started + RecordFailure(sha, permanent, w));
            && g.state == h.state
            && g.failure == (if permanent && MarkKept(w) then Some(Failure(sha, false, false)) else h.failure)
            && (w.candidateDown != FailedRunning ==> g.running == h.running - {sha})
  {
    var up, smoke := [Up(sha, w.up)], if smoked then [Smoke(sha)] else [];
    AlwaysOne(h, Up(sha, w.up), Permitted);
    var h1 := Replay(h, up);
    AlwaysOne(h1, Smoke(sha), Permitted);
    AlwaysConcat(h, up, smoke, Permitted);
    AlwaysConcat(h, up + smoke, RecordFailure(sha, permanent, w), Permitted);
    MarkerAfter(Replay(h1, smoke), sha, permanent, w);
  }

  /**
    A candidate that fails is reported, leaves the state as it was and is quarantined, as long as one marker was kept;
    one that was only overtaken leaves the marker as it was. Either way it is stopped, unless stopping it failed.
   */
  lemma FailedDeployQuarantines(h: Host, sha: Sha, slot: int, expected: Option<Sha>, w: World)
    requires Current(h) != Some(sha)
    ensures var t := Deploy(h, sha, slot, expected, w);
            var g := Replay(h, t.effects);
            && (FailsToStart(w) ==> !t.ok && g.state == h.state)
            && (FailsToStart(w) && MarkKept(w) ==> Quarantined(g, sha))
            && (FailsToStart(w) && !MarkKept(w) ==> g.failure == h.failure)
            && (!FailsToStart(w) && expected.Some? && w.headLast != expected ==>
                  g.failure == h.failure && g.state == h.state)
            && (FailsToStart(w) || (expected.Some? && w.headLast != expected) ==>
                  w.candidateDown != FailedRunning ==> g.running == h.running - {sha})
  {
    if !w.built {
      MarkerAfter(h, sha, true, w);
    } else if !w.up.ok || !w.smokePasses {
      MarkerAfterStart(h, sha, true, false, w);
      assert [Up(sha, w.up)] + [] == [Up(sha, w.up)];
    } else if expected.Some? && w.headLast != expected {
      MarkerAfterStart(h, sha, false, true, w);
      assert [Up(sha, w.up)] + [Smoke(sha)] == [Up(sha, w.up), Smoke(sha)];
    }
  }

  /** A candidate that came up and passed is reported as deployed exactly when the cleanup after it stopped the rest. */
  lemma DeployReports(h: Host, sha: Sha, slot: int, expected: Option<Sha>, w: World)
    requires Current(h) != Some(sha) && !FailsToStart(w)
    ensures Deploy(h, sha, slot, expected, w).ok
            <==> if expected.Some? && w.headLast != expected then w.headLast.Some?
                 else AllStopped(h.releases, Some(sha), w.sweepLast) && !w.copiesLeftLast
  {
    if !(expected.Some? && w.headLast != expected) {
      var state := State(sha, slot, Current(h), false);
      var h1 := Apply(Apply(Apply(h, Up(sha, w.up)), Smoke(sha)), Promote(state));
      AlwaysTwo(Apply(h, Up(sha, w.up)), Smoke(sha), Promote(state), Permitted);
      assert [Up(sha, w.up), Smoke(sha), Promote(state)][1..] == [Smoke(sha), Promote(state)];
      var resolved := ResolveFailure(h1, sha, w.resolveLastKept);
      if resolved != [] {
        AlwaysOne(h1, resolved[0], Permitted);
      }
    }
  }

  lemma FailedPreparedQuarantines(h: Host, sha: Sha, expected: Option<Sha>, w: World)
    requires Safe(h) && Current(h) != Some(sha) && Reaches(h, sha, expected, w) && FailsToStart(w)
    ensures var t := PrepareAndDeploy(h, sha, expected, w);
            var g := Replay(h, t.effects);
            && !t.ok && g.state == h.state
            && (if MarkKept(w) then Quarantined(g, sha) else g.failure == h.failure)
  {
    var slot, stored := NextSlot(h), SlotOf(h.releases, sha);
    var prepared := if stored.Some? then [] else [Prepare(sha, slot)];
    if stored.None? {
      PrepareEffects(h, sha, slot);
    }
    var h1 := Replay(h, prepared);
    FailedDeployQuarantines(h1, sha, slot, expected, w);
    AlwaysConcat(h, prepared, Deploy(h1, sha, slot, expected, w).effects, Permitted);
  }

  /** A poll whose candidate fails quarantines that revision. */
  lemma FailedPollQuarantines(h: Host, w: World)
    requires Safe(h) && Starts(h, w) && FailsToStart(w)
    ensures var t := Poll(h, w);
            var g := Replay(h, t.effects);
            !t.ok && g.state == h.state && (MarkKept(w) ==> Quarantined(g, w.head.value))
  {
    var recovered := Recover(h, w);
    var h1 := Replay(h, recovered);
    RecoverEffects(h, w);
    SameChecks(h, h1, w);
    AlwaysConcat(h, recovered, Advance(h1, w).effects, Permitted);
    assert Candidate(h1, w) == Candidate(h, w) == w.head;
    var swept := Reconcile(h1, Current(h1), w.sweepAgain, w.copiesLeftAgain);
    ReconcileEffects(h1, w.sweepAgain, w.copiesLeftAgain);
    var h2 := Replay(h1, swept.effects);
    FailedPreparedQuarantines(h2, w.head.value, w.head, w);
    AlwaysConcat(h1, swept.effects, PrepareAndDeploy(h2, w.head.value, w.head, w).effects, Permitted);
  }

  // ----- A failure is resolved once its revision runs -----

  lemma {:induction false} MarkerKept(h: Host, effects: seq<Effect>)
    requires forall e | e in effects :: !e.Mark?
    ensures Replay(h, effects).failure == h.failure
    decreases |effects|
  {
    if effects != [] {
      assert effects[0] in effects && forall e | e in effects[1..] :: e in effects;
      MarkerKept(Apply(h, effects[0]), effects[1..]);
    }
  }

  /** The marker once `current` runs: its own failure is resolved, any other stays as it was. */
  function ResolvedFor(failure: Option<Failure>, current: Sha, kept: bool): Option<Failure> {
    match failure
    case None => None
    case Some(f) => Some(Failure(f.sha, f.retryAllowed, f.resolved || (kept && f.sha == current)))
  }

  lemma ResolvesOwn(h: Host, current: Sha, kept: bool)
    ensures Replay(h, ResolveFailure(h, current, kept)).failure == ResolvedFor(h.failure, current, kept)
  {
    var resolved := ResolveFailure(h, current, kept);
    if resolved != [] {
      AlwaysOne(h, resolved[0], Permitted);
    }
  }

  /** A poll resolves the failure of the current release exactly when that release comes up. */
  lemma RecoveryResolves(h: Host, w: World)
    ensures Replay(h, Recover(h, w)).failure
            == if h.state.Some? then ResolvedFor(h.failure, h.state.value.current, w.currentUp.ok && w.resolveKept)
               else h.failure
  {
    var swept := Sweep(h.releases, Current(h), w.sweep);
    SweepMarksNothing(h.releases, Current(h), w.sweep);
    if h.state.None? {
      MarkerKept(h, swept);
      assert swept + [] == swept;
    } else {
      var current := h.state.value.current;
      var started := swept + [Up(current, w.currentUp)];
      var resolved := if w.currentUp.ok then ResolveFailure(h, current, w.resolveKept) else [];
      MarkerKept(h, started);
      var h1 := Replay(h, started);
      assert ResolveFailure(h1, current, w.resolveKept) == ResolveFailure(h, current, w.resolveKept);
      ResolvesOwn(h1, current, w.resolveKept);
      AlwaysConcat(h, started, resolved, Permitted);
      assert Recover(h, w) == started + resolved;
    }
  }

  /** Deploying a revision that failed before resolves its failure. */
  lemma DeployResolves(h: Host, sha: Sha, slot: int, expected: Option<Sha>, w: World)
    requires Current(h) != Some(sha) && !FailsToStart(w) && (expected.None? || w.headLast == expected)
    ensures Replay(h, Deploy(h, sha, slot, expected, w).effects).failure
            == ResolvedFor(h.failure, sha, w.resolveLastKept)
  {
    var promoted := [Up(sha, w.up), Smoke(sha), Promote(State(sha, slot, Current(h), false))];
    MarkerKept(h, promoted);
    var h1 := Replay(h, promoted);
    var resolved := ResolveFailure(h1, sha, w.resolveLastKept);
    ResolvesOwn(h1, sha, w.resolveLastKept);
    var h2 := Replay(h1, resolved);
    var swept := Sweep(h2.releases, Some(sha), w.sweepLast);
    SweepMarksNothing(h2.releases, Some(sha), w.sweepLast);
    MarkerKept(h2, swept);
    AlwaysConcat(h1, resolved, swept, Permitted);
    AlwaysConcat(h, promoted, resolved + swept, Permitted);
  }

  // ----- It holds until an operator resumes -----

  /** No marker is written but for this revision, and none that allows a retry. */
  predicate Holds(effects: seq<Effect>, sha: Sha) {
    forall e | e in effects && e.Mark? :: e.failure.sha == sha && !e.failure.retryAllowed
  }

  lemma {:induction false} HeldQuarantine(h: Host, effects: seq<Effect>, sha: Sha)
    requires Quarantined(h, sha) && Holds(effects, sha)
    ensures Quarantined(Replay(h, effects), sha)
    decreases |effects|
  {
    if effects != [] {
      assert effects[0] in effects && forall e | e in effects[1..] :: e in effects;
      HeldQuarantine(Apply(h, effects[0]), effects[1..], sha);
    }
  }

  lemma {:induction false} SweepMarksNothing(releases: seq<Release>, current: Option<Sha>, sweep: map<Sha, DownResult>)
    ensures forall e | e in Sweep(releases, current, sweep) :: e.Down?
  {
    if releases != [] {
      SweepMarksNothing(releases[1..], current, sweep);
    }
  }

  lemma QuarantinedPollHolds(h: Host, w: World, sha: Sha)
    requires Safe(h) && Quarantined(h, sha) && (w.head.None? || w.head == Some(sha))
    ensures Holds(Poll(h, w).effects, sha) && Always(h, Poll(h, w).effects, KeepsState)
  {
    PollWithoutCandidate(h, w);
    RecoverEffects(h, w);
    var recovered := Recover(h, w);
    assert Candidate(Replay(h, recovered), w).None?;
    assert recovered + [] == recovered;
    assert Poll(h, w).effects == recovered;
    SweepMarksNothing(h.releases, Current(h), w.sweep);
  }

  lemma QuarantinedAttempt(h: Host, a: Attempt, sha: Sha)
    requires Safe(h) && Quarantined(h, sha)
    requires a.command.PollNow? && (a.command.w.head.None? || a.command.w.head == Some(sha))
    ensures var g := Replay(h, Done(h, a));
            Safe(g) && Quarantined(g, sha) && g.state == h.state && Always(h, Done(h, a), KeepsState)
  {
    var effects := Outcome(h, a.command).effects;
    QuarantinedPollHolds(h, a.command.w, sha);
    DonePermitted(h, a);
    if a.survived < |effects| {
      var (done, rest) := (effects[..a.survived], effects[a.survived..]);
      assert effects == done + rest;
      AlwaysConcat(h, done, rest, KeepsState);
      assert forall e | e in done :: e in effects;
    }
    HeldQuarantine(h, Done(h, a), sha);
    KeptState(h, Done(h, a));
  }

  /**
    A quarantined revision stays so over any polls that find it at the head or find no head, dying anywhere: state.json
    does not change and nothing but current is started.
   */
  lemma {:induction false} QuarantineHolds(h: Host, sha: Sha, attempts: seq<Attempt>, next: Attempt)
    requires Safe(h) && Quarantined(h, sha)
    requires forall a | a in attempts + [next] ::
               a.command.PollNow? && (a.command.w.head.None? || a.command.w.head == Some(sha))
    ensures var g := Operate(h, attempts);
            && g.state == h.state && Quarantined(g, sha) && Always(g, Done(g, next), KeepsState)
    decreases |attempts|
  {
    if attempts == [] {
      assert next in attempts + [next];
      QuarantinedAttempt(h, next, sha);
    } else {
      assert attempts[0] in attempts + [next];
      assert forall a | a in attempts[1..] + [next] :: a in attempts + [next];
      QuarantinedAttempt(h, attempts[0], sha);
      hide Done, Quarantined, Safe, Always;
      QuarantineHolds(Replay(h, Done(h, attempts[0])), sha, attempts[1..], next);
    }
  }

  /** From the failure on: once a poll's candidate failed, polls of the same head never start it again. */
  lemma FailedRevisionIsNotRetried(h: Host, w: World, attempts: seq<Attempt>, next: Attempt)
    requires Safe(h) && Starts(h, w) && FailsToStart(w) && MarkKept(w)
    requires forall a | a in attempts + [next] ::
               a.command.PollNow? && (a.command.w.head.None? || a.command.w.head == w.head)
    ensures var failed := Replay(h, Poll(h, w).effects);
            var g := Operate(failed, attempts);
            g.state == h.state && Always(g, Done(g, next), KeepsState)
  {
    FailedPollQuarantines(h, w);
    PollEffects(h, w);
    hide Poll, Replay, Starts, Safe, Quarantined, Done, Always, Operate;
    QuarantineHolds(Replay(h, Poll(h, w).effects), w.head.value, attempts, next);
  }

  /** Resuming lifts the pause and every quarantine, and touches nothing else. */
  lemma ResumeLifts(h: Host, sha: Sha)
    ensures var g := Replay(h, Resume(h).effects);
            && !Quarantined(g, sha) && Current(g) == Current(h) && Resume(h).ok
            && (h.state.Some? ==>
                  g.state == Some(State(h.state.value.current, h.state.value.slot, h.state.value.previous, false)))
            && (h.failure.Some? ==> g.failure == Some(Failure(h.failure.value.sha, true, h.failure.value.resolved)))
            && g == h.(state := g.state, failure := g.failure)
            && (h.state.None? ==> g.state.None?) && (h.failure.None? ==> g.failure.None?)
  {
    var first := if h.state.Some? then [Promote(h.state.value.(paused := false))] else [];
    var last := if h.failure.Some? then [Mark(h.failure.value.(retryAllowed := true))] else [];
    if h.state.Some? {
      AlwaysOne(h, first[0], Permitted);
    }
    if h.failure.Some? {
      AlwaysOne(Replay(h, first), last[0], Permitted);
    }
    AlwaysConcat(h, first, last, Permitted);
  }

  // ----- The run that decides -----

  /** A later run, or a later attempt of the same one. */
  predicate Newer(a: Run, b: Run) {
    a.id > b.id || (a.id == b.id && a.attempt > b.attempt)
  }

  /** Eligibility is decided by the newest attempt of the newest run, and by nothing else. */
  lemma {:induction false} LatestIsNewest(runs: seq<Run>)
    requires runs != []
    ensures Latest(runs) in runs && forall r | r in runs :: !Newer(r, Latest(runs))
  {
    if |runs| > 1 {
      var front := runs[..|runs| - 1];
      LatestIsNewest(front);
      assert runs == front + [runs[|runs| - 1]];
    }
  }

  lemma EligibleExactly(runs: seq<Run>, head: Sha)
    requires forall a, b | a in runs && b in runs && !Newer(a, b) && !Newer(b, a) :: a == b
    ensures Eligible(runs, head)
            <==> exists r | r in runs :: r.head == head && Green(r) && forall s | s in runs :: !Newer(s, r)
  {
    if runs != [] {
      LatestIsNewest(runs);
    }
  }
}
