/** The deployer executed step by step on the host's files and stacks (tools/cd/deploy.py). */
module DeployerMachine {
  import opened Outcomes
  import opened Deployer

  class Machine {
    var state: Option<State>
    var failure: Option<Failure>
    var releases: seq<Release>
    var running: set<Sha>
    ghost var smoked: set<Sha>
    /** Every effect so far, in the order it happened. */
    ghost var log: seq<Effect>

    constructor ()
      ensures Contents() == FRESH && log == []
    {
      state, failure, releases, running := None, None, [], {};
      smoked, log := {}, [];
    }

    ghost function Contents(): Host
      reads this
    {
      Host(state, failure, releases, running, smoked)
    }

    /** Since `before`, exactly these effects happened, in this order. */
    ghost predicate Did(before: Host, history: seq<Effect>, effects: seq<Effect>)
      reads this
    {
      Contents() == Replay(before, effects) && log == history + effects
    }

    lemma DidThen(before: Host, history: seq<Effect>, first: seq<Effect>, middle: Host, rest: seq<Effect>)
      requires middle == Replay(before, first) && Did(middle, history + first, rest)
      ensures Did(before, history, first + rest)
    {
      AlwaysConcat(before, first, rest, Permitted);
      assert history + first + rest == history + (first + rest);
    }

    // ----- Single effects -----

    method ComposeDown(sha: Sha, result: DownResult) returns (ok: bool)
      modifies `running, `log
      ensures Did(old(Contents()), old(log), [Down(sha, result)]) && ok == (result == Stopped)
    {
      if result != FailedRunning {
        running := running - {sha};
      }
      log := log + [Down(sha, result)];
      ok := result == Stopped;
      AlwaysOne(old(Contents()), Down(sha, result), Permitted);
    }

    method ComposeUp(sha: Sha, outcome: UpResult) returns (ok: bool)
      modifies `running, `log
      ensures Did(old(Contents()), old(log), [Up(sha, outcome)]) && ok == outcome.ok
    {
      if outcome.ok || outcome.started {
        running := running + {sha};
      }
      log := log + [Up(sha, outcome)];
      ok := outcome.ok;
      AlwaysOne(old(Contents()), Up(sha, outcome), Permitted);
    }

    ghost method SmokePassed(sha: Sha)
      modifies `smoked, `log
      ensures Did(old(Contents()), old(log), [Smoke(sha)])
    {
      smoked := smoked + {sha};
      log := log + [Smoke(sha)];
      AlwaysOne(old(Contents()), Smoke(sha), Permitted);
    }

    method WriteState(value: State)
      modifies `state, `log
      ensures Did(old(Contents()), old(log), [Promote(value)])
    {
      state := Some(value);
      log := log + [Promote(value)];
      AlwaysOne(old(Contents()), Promote(value), Permitted);
    }

    method WriteFailure(value: Failure)
      modifies `failure, `log
      ensures Did(old(Contents()), old(log), [Mark(value)])
    {
      failure := Some(value);
      log := log + [Mark(value)];
      AlwaysOne(old(Contents()), Mark(value), Permitted);
    }

    method CreateRelease(sha: Sha, slot: int)
      modifies `releases, `log
      ensures Did(old(Contents()), old(log), [Prepare(sha, slot)])
    {
      releases := Insert(releases, Release(sha, slot));
      log := log + [Prepare(sha, slot)];
      AlwaysOne(old(Contents()), Prepare(sha, slot), Permitted);
    }

    method StoredSlot(sha: Sha) returns (slot: Option<int>)
      ensures slot == SlotOf(releases, sha)
    {
      for i := 0 to |releases|
        invariant SlotOf(releases, sha) == SlotOf(releases[i..], sha)
      {
        if releases[i].sha == sha {
          return Some(releases[i].slot);
        }
        assert releases[i..][1..] == releases[i + 1..];
      }
      return None;
    }

    // ----- Procedures -----

    /** One `down` of the sweep, after the effects so far. */
    method StopOne(sha: Sha, result: DownResult,
                   ghost start: Host, ghost history: seq<Effect>, ghost effects: seq<Effect>)
      returns (ok: bool)
      requires Did(start, history, effects)
      modifies `running, `log
      ensures Did(start, history, effects + [Down(sha, result)]) && ok == (result == Stopped)
    {
      hide Replay;
      ghost var middle := Contents();
      ok := ComposeDown(sha, result);
      DidThen(start, history, effects, middle, [Down(sha, result)]);
    }

    method ReconcileAll(current: Option<Sha>, sweep: map<Sha, DownResult>, copiesLeft: bool) returns (ok: bool)
      modifies this
      ensures var t := Deployer.Reconcile(old(Contents()), current, sweep, copiesLeft);
              Did(old(Contents()), old(log), t.effects) && ok == t.ok
    {
      var failures := 0;
      ghost var start, history := Contents(), log;
      ghost var effects := [];
      assert Did(start, history, effects);
      assert AllStopped(releases[..0], current, sweep) && releases[0..] == releases;
      hide Replay, AllStopped, Sweep, Did;
      for i := 0 to |releases|
        invariant releases == start.releases && Did(start, history, effects)
        invariant Sweep(releases, current, sweep) == effects + Sweep(releases[i..], current, sweep)
        invariant (failures == 0) == AllStopped(releases[..i], current, sweep)
        invariant failures >= 0
      {
        var sha := releases[i].sha;
        SweepStep(effects, releases, i, current, sweep);
        if Some(sha) != current {
          var stopped := StopOne(sha, Result(sweep, sha), start, history, effects);
          if !stopped {
            failures := failures + 1;
          }
          effects := effects + [Down(sha, Result(sweep, sha))];
        }
      }
      assert releases[..|releases|] == releases;
      SweepNothing(effects, releases, current, sweep);
      ok := failures == 0 && !copiesLeft;
    }

    method RecordFailedCandidate(sha: Sha, permanent: bool, w: World)
      modifies this
      ensures Did(old(Contents()), old(log), RecordFailure(sha, permanent, w))
    {
      var mark := Failure(sha, false, false);
      ghost var effects: seq<Effect> := [];
      if permanent && w.markKept {
        WriteFailure(mark);
        effects := [Mark(mark)];
      }
      ghost var middle := Contents();
      var stopped := ComposeDown(sha, w.candidateDown);
      DidThen(old(Contents()), old(log), effects, middle, [Down(sha, w.candidateDown)]);
      effects := effects + [Down(sha, w.candidateDown)];
      if !stopped && permanent && w.markAgainKept {
        middle := Contents();
        WriteFailure(mark);
        DidThen(old(Contents()), old(log), effects, middle, [Mark(mark)]);
      } else {
        assert effects + [] == effects;
      }
    }

    method Resolve(current: Sha, kept: bool)
      modifies this
      ensures Did(old(Contents()), old(log), ResolveFailure(old(Contents()), current, kept))
    {
      if kept && failure.Some? && failure.value.sha == current && !failure.value.resolved {
        WriteFailure(failure.value.(resolved := true));
      } else {
        assert log + [] == log;
      }
    }

    method TransitionCleanup(current: Sha, w: World) returns (ok: bool)
      modifies this
      ensures var t := Finish(old(Contents()), current, w);
              Did(old(Contents()), old(log), t.effects) && ok == t.ok
    {
      Resolve(current, w.resolveLastKept);
      ghost var middle := Contents();
      ok := ReconcileAll(Some(current), w.sweepLast, w.copiesLeftLast);
      DidThen(old(Contents()), old(log), ResolveFailure(old(Contents()), current, w.resolveLastKept), middle,
              Deployer.Reconcile(middle, Some(current), w.sweepLast, w.copiesLeftLast).effects);
    }

    method DeployRelease(sha: Sha, slot: int, expected: Option<Sha>, w: World) returns (ok: bool)
      modifies this
      ensures var t := Deploy(old(Contents()), sha, slot, expected, w);
              Did(old(Contents()), old(log), t.effects) && ok == t.ok
    {
      if state.Some? && state.value.current == sha {
        Resolve(sha, w.resolveLastKept);
        return true;
      }
      var previous := if state.Some? then Some(state.value.current) else None;
      if !w.built {
        RecordFailedCandidate(sha, true, w);
        return false;
      }
      ghost var effects := [Up(sha, w.up)];
      var up := ComposeUp(sha, w.up);
      if !up || !w.smokePasses {
        ghost var middle := Contents();
        RecordFailedCandidate(sha, true, w);
        DidThen(old(Contents()), old(log), effects, middle, RecordFailure(sha, true, w));
        return false;
      }
      ghost var verified := Contents();
      SmokePassed(sha);
      DidThen(old(Contents()), old(log), effects, verified, [Smoke(sha)]);
      effects := [Up(sha, w.up), Smoke(sha)];
      assert [Up(sha, w.up)] + [Smoke(sha)] == effects;
      ghost var middle := Contents();
      if expected.Some? && w.headLast != expected {
        RecordFailedCandidate(sha, false, w);
        DidThen(old(Contents()), old(log), effects, middle, RecordFailure(sha, false, w));
        return w.headLast.Some?;
      }
      WriteState(State(sha, slot, previous, false));
      DidThen(old(Contents()), old(log), effects, middle, [Promote(State(sha, slot, previous, false))]);
      effects := [Up(sha, w.up), Smoke(sha), Promote(State(sha, slot, previous, false))];
      assert [Up(sha, w.up), Smoke(sha)] + [Promote(State(sha, slot, previous, false))] == effects;
      middle := Contents();
      ok := TransitionCleanup(sha, w);
      DidThen(old(Contents()), old(log), effects, middle, Finish(middle, sha, w).effects);
    }

    method PrepareThenDeploy(sha: Sha, expected: Option<Sha>, w: World) returns (ok: bool)
      modifies this
      ensures var t := PrepareAndDeploy(old(Contents()), sha, expected, w);
              Did(old(Contents()), old(log), t.effects) && ok == t.ok
    {
      var slot := if state.Some? then 1 - state.value.slot else 0;
      var stored := StoredSlot(sha);
      ghost var effects: seq<Effect> := [];
      if stored.Some? {
        if stored.value != slot {
          return false;
        }
      } else {
        if !w.copied {
          return false;
        }
        CreateRelease(sha, slot);
        effects := [Prepare(sha, slot)];
      }
      if expected.Some? && w.headAgain != expected {
        return w.headAgain.Some?;
      }
      ghost var middle := Contents();
      ok := DeployRelease(sha, slot, expected, w);
      DidThen(old(Contents()), old(log), effects, middle, Deploy(middle, sha, slot, expected, w).effects);
    }

    // ----- Commands -----

    method RecoverCurrent(w: World)
      modifies this
      ensures Did(old(Contents()), old(log), Recover(old(Contents()), w))
    {
      ghost var start := Contents();
      var current := if state.Some? then Some(state.value.current) else None;
      var clean := ReconcileAll(current, w.sweep, w.copiesLeft);
      ghost var swept := Sweep(start.releases, current, w.sweep);
      SweepIsQuiet(start.releases, current, w.sweep);
      QuietKeepsState(start, swept);
      if current.Some? {
        ghost var middle, history := Contents(), log;
        var up := ComposeUp(current.value, w.currentUp);
        ghost var rest := [Up(current.value, w.currentUp)];
        if up {
          ghost var upped := Contents();
          Resolve(current.value, w.resolveKept);
          SweepKeepsFailure(start, start.releases, current, w.sweep);
          DidThen(middle, history, rest, upped, ResolveFailure(upped, current.value, w.resolveKept));
          rest := rest + ResolveFailure(upped, current.value, w.resolveKept);
        } else {
          assert rest + [] == rest;
        }
        DidThen(start, old(log), swept, middle, rest);
      } else {
        assert swept + [] == swept;
      }
    }

    method Poll(w: World) returns (ok: bool)
      modifies this
      ensures var t := Deployer.Poll(old(Contents()), w);
              Did(old(Contents()), old(log), t.effects) && ok == t.ok
      ensures old(Safe(Contents())) ==> Safe(Contents()) && Always(old(Contents()), log[|old(log)|..], Permitted)
    {
      CommandIsSafe(Contents(), PollNow(w));
      RecoverCurrent(w);
      ghost var middle := Contents();
      ok := AdvanceToHead(w);
      DidThen(old(Contents()), old(log), Recover(old(Contents()), w), middle, Advance(middle, w).effects);
    }

    method AdvanceToHead(w: World) returns (ok: bool)
      modifies this
      ensures var t := Advance(old(Contents()), w);
              Did(old(Contents()), old(log), t.effects) && ok == t.ok
    {
      if w.head.None? || w.runs.None? {
        return false;
      }
      if !w.integrated || !Eligible(w.runs.value, w.head.value) {
        return true;
      }
      var current := if state.Some? then Some(state.value.current) else None;
      if current == w.head || (state.Some? && state.value.paused) {
        return true;
      }
      if failure.Some? && failure.value.sha == w.head.value && !failure.value.retryAllowed {
        return true;
      }
      ok := ReconcileAll(current, w.sweepAgain, w.copiesLeftAgain);
      if !ok {
        return;
      }
      if w.fetched != w.head {
        return w.fetched.Some?;
      }
      ghost var middle := Contents();
      ok := PrepareThenDeploy(w.head.value, w.head, w);
      DidThen(old(Contents()), old(log),
              Deployer.Reconcile(old(Contents()), current, w.sweepAgain, w.copiesLeftAgain).effects,
              middle, PrepareAndDeploy(middle, w.head.value, w.head, w).effects);
    }

    method Rollback(w: World) returns (ok: bool)
      modifies this
      ensures var t := Deployer.Rollback(old(Contents()), w);
              Did(old(Contents()), old(log), t.effects) && ok == t.ok
      ensures old(Safe(Contents())) ==> Safe(Contents()) && Always(old(Contents()), log[|old(log)|..], Permitted)
    {
      CommandIsSafe(Contents(), RollbackNow(w));
      if state.None? {
        return false;
      }
      var current, repeated := state.value.current, state.value.paused;
      var target := if repeated then Some(current) else state.value.previous;
      if target.None? {
        return false;
      }
      ghost var effects := [Up(target.value, w.up)];
      var up := ComposeUp(target.value, w.up);
      ghost var middle := Contents();
      if !up || !w.smokePasses {
        if !repeated {
          RecordFailedCandidate(target.value, true, w);
          DidThen(old(Contents()), old(log), effects, middle, RecordFailure(target.value, true, w));
        } else {
          assert effects + [] == effects;
        }
        return false;
      }
      SmokePassed(target.value);
      DidThen(old(Contents()), old(log), effects, middle, [Smoke(target.value)]);
      effects := [Up(target.value, w.up), Smoke(target.value)];
      assert [Up(target.value, w.up)] + [Smoke(target.value)] == effects;
      var slot := StoredSlot(target.value);
      if slot.None? {
        return false;
      }
      if !repeated {
        middle := Contents();
        var next := State(target.value, slot.value, Some(current), true);
        WriteState(next);
        DidThen(old(Contents()), old(log), effects, middle, [Promote(next)]);
        effects := effects + [Promote(next)];
      } else {
        assert effects + [] == effects;
      }
      middle := Contents();
      ok := TransitionCleanup(target.value, w);
      DidThen(old(Contents()), old(log), effects, middle, Finish(middle, target.value, w).effects);
    }

    method Resume()
      modifies this
      ensures Did(old(Contents()), old(log), Deployer.Resume(old(Contents())).effects)
      ensures old(Safe(Contents())) ==> Safe(Contents()) && Always(old(Contents()), log[|old(log)|..], Permitted)
    {
      CommandIsSafe(Contents(), ResumeNow);
      ghost var effects: seq<Effect> := [];
      if state.Some? {
        WriteState(state.value.(paused := false));
        effects := [Promote(old(state).value.(paused := false))];
      }
      if failure.Some? {
        ghost var middle := Contents();
        WriteFailure(failure.value.(retryAllowed := true));
        DidThen(old(Contents()), old(log), effects, middle, [Mark(old(failure).value.(retryAllowed := true))]);
      } else {
        assert effects + [] == effects;
      }
    }

    method ValidateSource(sha: Sha, w: World) returns (ok: bool)
      modifies this
      ensures var t := Deployer.ValidateSource(old(Contents()), sha, w);
              Did(old(Contents()), old(log), t.effects) && ok == t.ok
      ensures old(Safe(Contents())) ==> Safe(Contents()) && Always(old(Contents()), log[|old(log)|..], Permitted)
    {
      CommandIsSafe(Contents(), ValidateNow(sha, w));
      var stored := StoredSlot(sha);
      if (state.Some? && state.value.paused) || stored.Some? {
        return false;
      }
      var current := if state.Some? then Some(state.value.current) else None;
      ok := ReconcileAll(current, w.sweepAgain, w.copiesLeftAgain);
      if !ok {
        return;
      }
      ghost var middle := Contents();
      ok := PrepareThenDeploy(sha, None, w);
      DidThen(old(Contents()), old(log),
              Deployer.Reconcile(old(Contents()), current, w.sweepAgain, w.copiesLeftAgain).effects,
              middle, PrepareAndDeploy(middle, sha, None, w).effects);
    }
  }

  /** What a command must do on a safe host keeps it safe, effect by effect. */
  lemma CommandIsSafe(h: Host, c: Command)
    ensures Safe(h) ==>
              && Always(h, Outcome(h, c).effects, Permitted) && Safe(Replay(h, Outcome(h, c).effects))
  {
    if Safe(h) {
      CommandEffects(h, c);
      PermittedKeepsSafe(h, Outcome(h, c).effects);
    }
  }

  /** One turn of the sweep, after the effects so far. */
  lemma SweepStep(done: seq<Effect>, releases: seq<Release>, i: nat, current: Option<Sha>, sweep: map<Sha, DownResult>)
    requires i < |releases|
    ensures var r := Result(sweep, releases[i].sha);
            && (Some(releases[i].sha) == current ==>
                  && done + Sweep(releases[i..], current, sweep) == done + Sweep(releases[i + 1..], current, sweep)
                  && AllStopped(releases[..i + 1], current, sweep) == AllStopped(releases[..i], current, sweep))
            && (Some(releases[i].sha) != current ==>
                  && done + Sweep(releases[i..], current, sweep)
                     == done + [Down(releases[i].sha, r)] + Sweep(releases[i + 1..], current, sweep)
                  && AllStopped(releases[..i + 1], current, sweep)
                     == (AllStopped(releases[..i], current, sweep) && r == Stopped))
  {
    assert releases[i..][1..] == releases[i + 1..];
    assert releases[..i + 1] == releases[..i] + [releases[i]];
    assert forall k | 0 <= k < i :: releases[..i + 1][k] == releases[..i][k];
    assert releases[..i + 1][i] == releases[i];
  }

  lemma SweepNothing(done: seq<Effect>, releases: seq<Release>, current: Option<Sha>, sweep: map<Sha, DownResult>)
    ensures done + Sweep(releases[|releases|..], current, sweep) == done
  {
    assert releases[|releases|..] == [];
  }

  lemma {:induction false} SweepKeepsFailure(h: Host, releases: seq<Release>, current: Option<Sha>,
                                             sweep: map<Sha, DownResult>)
    ensures Replay(h, Sweep(releases, current, sweep)).failure == h.failure
    decreases |releases|
  {
    if releases != [] {
      if Some(releases[0].sha) == current {
        assert Sweep(releases, current, sweep) == Sweep(releases[1..], current, sweep);
        SweepKeepsFailure(h, releases[1..], current, sweep);
      } else {
        var e := Down(releases[0].sha, Result(sweep, releases[0].sha));
        assert Sweep(releases, current, sweep)[1..] == Sweep(releases[1..], current, sweep);
        SweepKeepsFailure(Apply(h, e), releases[1..], current, sweep);
      }
    }
  }
}
