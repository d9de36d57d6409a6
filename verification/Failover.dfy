/**
 * The failover loop of `crates/libsubby/src/proxy/codex.rs:310-418` and `proxy/claude.rs`, over a router
 * that other requests keep using: every lock section, ours or theirs, is a step of one run.
 */
module Failover {
  import opened Prelude
  import opened Balance
  import opened Strategy
  import opened Router
  import opened RouterRuns
  import opened RouterWorld
  import opened Attempts

  /** A request as the loop sees it; the pool it arrived on is resolved once. */
  datatype Request = Request(call: CallId, provider: Provider, hints: Hints, pool: Option<PoolGate>)

  /** What one turn meets: the registry's list, the usage round, the attempt, and what others do in between. */
  datatype Round = Round(wait: seq<Step>, subs: seq<SubStatus>, lag: nat, between: seq<Step>,
                         scores: seq<Option<Usage>>, registered: bool, inputs: Inputs)

  /** One selected sub: where in the log it was chosen, how its attempt ended and where; no outcome, not sent. */
  datatype Try = Try(sub: SubId, candidates: nat, chosenAt: nat, outcome: Option<Outcome>, endedAt: nat) {
    predicate Sent() { outcome.Some? }

    predicate Rotated() { outcome.Some? && outcome.value.Rotate? }
  }

  datatype Answer = Answered(status: nat) | NotSelected(error: SelectError) | UsedUp(status: nat)

  /** Selecting, as steps of the run, and its result. */
  function SelectOf(w: World, request: Request, round: Round): (seq<Step>, Result<Selection, SelectError>) {
    var w1 := Run(w, round.wait);
    var begun := Begin(w1.router, request.provider, round.subs, request.hints, request.pool, w1.clock - round.lag).1;
    var log1 := round.wait + Own(Begins(request, round));
    match begun
    case Refused(error) => (log1, Err(error))
    case Chosen(selection) => (log1, Ok(selection))
    case Proceed(live, settings) =>
      var log2 := log1 + round.between;
      var w2 := Run(w, log2);
      (log2 + Own(Committed(request.call, round.scores)),
       Commit(w2.router, request.provider, live, settings, round.scores, w2.clock).1)
  }

  function Begins(request: Request, round: Round): Event {
    Began(request.call, request.provider, round.subs, request.hints, request.pool, round.lag)
  }

  /** The steps of others never use this request's call. */
  ghost predicate Foreign(steps: seq<Step>, call: CallId) {
    forall i :: 0 <= i < |steps| ==> steps[i].event.Began? || steps[i].event.Committed? ==> steps[i].event.call != call
  }

  /** Where turn `i` starts in the log: where the turn before it ended. */
  function From(tries: seq<Try>, i: nat): nat
    requires i <= |tries|
  {
    if i == 0 then 0 else tries[i - 1].endedAt
  }

  /** This turn of the loop: these steps of the log selected the sub, and those were its attempt. */
  ghost predicate Turn(w: World, log: seq<Step>, from: nat, t: Try, request: Request, round: Round) {
    && from <= t.chosenAt <= t.endedAt <= |log|
    && (var (steps, selection) := SelectOf(Run(w, log[..from]), request, round);
        && steps == log[from..t.chosenAt]
        && selection.Ok? && selection.value.sub == t.sub && selection.value.candidates == t.candidates)
    && (if round.registered
        then t.Sent()
             && AttemptOf(Run(w, log[..t.chosenAt]), t.sub, round.inputs)
                == (log[t.chosenAt..t.endedAt], t.outcome.value)
        else !t.Sent() && t.endedAt == t.chosenAt)
  }

  /** A run of the loop: turn after turn, going on only after a rotation or when the registry lost the sub. */
  ghost predicate Trace(w: World, log: seq<Step>, tries: seq<Try>, request: Request, rounds: nat -> Round) {
    && (forall i :: 0 <= i < |tries| ==> Turn(w, log, From(tries, i), tries[i], request, rounds(i)))
    && GoesOn(tries)
  }

  ghost predicate GoesOn(tries: seq<Try>) {
    forall i :: 0 <= i < |tries| - 1 ==> tries[i].Sent() ==> tries[i].Rotated()
  }

  /** The status of the last rotation, the answer once nobody is left to try. */
  function LastTerminal(tries: seq<Try>): nat {
    if tries == [] then 429
    else
      var last := tries[|tries| - 1];
      if last.Rotated() then last.outcome.value.terminal else LastTerminal(tries[..|tries| - 1])
  }

  /** The loop: at most one attempt for each candidate of the first selection. */
  method Forward(w: World, request: Request, rounds: nat -> Round)
    returns (answer: Answer, tries: seq<Try>, log: seq<Step>)
    ensures Trace(w, log, tries, request, rounds)
    ensures tries != [] ==> |tries| <= if tries[0].candidates == 0 then 1 else tries[0].candidates
    ensures answer.Answered? ==>
              && tries != []
              && (var last := tries[|tries| - 1].outcome;
                  last == Some(Done(answer.status)) || last == Some(Outcome.Fail(answer.status)))
    ensures answer.NotSelected? ==>
              && (forall i :: 0 <= i < |tries| ==> tries[i].Sent() ==> tries[i].Rotated())
              && SelectOf(Run(w, log), request, rounds(|tries|)).1 == Err(answer.error)
    ensures answer.UsedUp? ==>
              && tries != [] && (forall i :: 0 <= i < |tries| ==> tries[i].Sent() ==> tries[i].Rotated())
              && |tries| == (if tries[0].candidates == 0 then 1 else tries[0].candidates)
              && answer.status == (if LastTerminal(tries) == 429 then 429 else 503)
  {
    hide Trace, SelectOf, AttemptOf, Run, LastTerminal;
    var terminal := 429;
    var maxAttempts := USIZE_MAX;
    var attemptNo := 0;
    tries, log := [], [];
    NoTurns(w, request, rounds);
    while attemptNo < maxAttempts
      invariant attemptNo == |tries|
      invariant Trace(w, log, tries, request, rounds) && From(tries, |tries|) == |log|
      invariant if tries == [] then maxAttempts == USIZE_MAX
                else
                  && maxAttempts == (if tries[0].candidates == 0 then 1 else tries[0].candidates)
                  && attemptNo <= maxAttempts
      invariant forall i :: 0 <= i < |tries| ==> tries[i].Sent() ==> tries[i].Rotated()
      invariant terminal == LastTerminal(tries)
      decreases if attemptNo == 0 then 1 else 0, maxAttempts - attemptNo
    {
      var round := rounds(attemptNo);
      var (selecting, selection) := SelectOf(Run(w, log), request, round);
      if selection.Err? {
        return NotSelected(selection.error), tries, log;
      }
      var sub := selection.value.sub;
      if attemptNo == 0 {
        maxAttempts := if selection.value.candidates == 0 then 1 else selection.value.candidates;
      }
      attemptNo := attemptNo + 1;
      var chosenAt := |log| + |selecting|;
      if !round.registered {
        var lost := Try(sub, selection.value.candidates, chosenAt, None, chosenAt);
        TurnAdded(w, log, selecting, [], selection.value, tries, lost, request, rounds);
        assert log + selecting + [] == log + selecting;
        log, tries := log + selecting, tries + [lost];
        continue;
      }
      var (attempting, outcome) := AttemptOf(Run(w, log + selecting), sub, round.inputs);
      var sent := Try(sub, selection.value.candidates, chosenAt, Some(outcome), chosenAt + |attempting|);
      TurnAdded(w, log, selecting, attempting, selection.value, tries, sent, request, rounds);
      log, tries := log + selecting + attempting, tries + [sent];
      match outcome {
        case Done(status) => return Answered(status), tries, log;
        case Fail(status) => return Answered(status), tries, log;
        case Rotate(status) => terminal := status;
      }
    }
    answer := UsedUp(if terminal == 429 then 429 else 503);
  }

  lemma NoTurns(w: World, request: Request, rounds: nat -> Round)
    ensures Trace(w, [], [], request, rounds) && LastTerminal([]) == 429
  {
  }

  lemma TurnKept(w: World, log: seq<Step>, more: seq<Step>, from: nat, t: Try, request: Request, round: Round)
    requires Turn(w, log, from, t, request, round)
    ensures Turn(w, log + more, from, t, request, round)
  {
    hide SelectOf, AttemptOf, Run;
    assert (log + more)[..from] == log[..from] && (log + more)[..t.chosenAt] == log[..t.chosenAt];
    assert (log + more)[from..t.chosenAt] == log[from..t.chosenAt];
    assert (log + more)[t.chosenAt..t.endedAt] == log[t.chosenAt..t.endedAt];
  }

  lemma TurnMade(w: World, log: seq<Step>, selecting: seq<Step>, attempting: seq<Step>, selection: Selection, t: Try,
                 request: Request, round: Round)
    requires SelectOf(Run(w, log), request, round) == (selecting, Ok(selection))
    requires t.sub == selection.sub && t.candidates == selection.candidates
    requires t.chosenAt == |log| + |selecting| && t.endedAt == t.chosenAt + |attempting|
    requires if round.registered
             then t.Sent() && AttemptOf(Run(w, log + selecting), t.sub, round.inputs) == (attempting, t.outcome.value)
             else !t.Sent() && attempting == []
    ensures Turn(w, log + selecting + attempting, |log|, t, request, round)
  {
    hide SelectOf, AttemptOf, Run;
    var all := log + selecting + attempting;
    assert all[..|log|] == log && all[..t.chosenAt] == log + selecting;
    assert all[|log|..t.chosenAt] == selecting && all[t.chosenAt..t.endedAt] == attempting;
  }

  lemma TurnAdded(w: World, log: seq<Step>, selecting: seq<Step>, attempting: seq<Step>, selection: Selection,
                  tries: seq<Try>, next: Try, request: Request, rounds: nat -> Round)
    requires Trace(w, log, tries, request, rounds) && From(tries, |tries|) == |log|
    requires forall i :: 0 <= i < |tries| ==> tries[i].Sent() ==> tries[i].Rotated()
    requires SelectOf(Run(w, log), request, rounds(|tries|)) == (selecting, Ok(selection))
    requires next.sub == selection.sub && next.candidates == selection.candidates
    requires next.chosenAt == |log| + |selecting| && next.endedAt == next.chosenAt + |attempting|
    requires if rounds(|tries|).registered
             then next.Sent()
                  && AttemptOf(Run(w, log + selecting), next.sub, rounds(|tries|).inputs)
                     == (attempting, next.outcome.value)
             else !next.Sent() && attempting == []
    ensures Trace(w, log + selecting + attempting, tries + [next], request, rounds)
    ensures LastTerminal(tries + [next]) == if next.Rotated() then next.outcome.value.terminal else LastTerminal(tries)
  {
    hide SelectOf, AttemptOf, Run, Turn, Trace, LastTerminal;
    assert log + selecting + attempting == log + (selecting + attempting);
    TurnMade(w, log, selecting, attempting, selection, next, request, rounds(|tries|));
    TraceKept(w, log, selecting + attempting, tries, request, rounds);
    TraceExtended(w, log + selecting + attempting, tries, next, request, rounds);
    LastTerminalStep(tries, next);
  }

  lemma TraceKept(w: World, log: seq<Step>, more: seq<Step>, tries: seq<Try>, request: Request, rounds: nat -> Round)
    requires Trace(w, log, tries, request, rounds)
    ensures Trace(w, log + more, tries, request, rounds)
  {
    hide SelectOf, AttemptOf, Run, Turn, From;
    forall i | 0 <= i < |tries|
      ensures Turn(w, log + more, From(tries, i), tries[i], request, rounds(i))
    {
      TurnKept(w, log, more, From(tries, i), tries[i], request, rounds(i));
    }
  }

  lemma TraceExtended(w: World, log: seq<Step>, tries: seq<Try>, next: Try, request: Request, rounds: nat -> Round)
    requires Trace(w, log, tries, request, rounds)
    requires Turn(w, log, From(tries, |tries|), next, request, rounds(|tries|))
    requires forall i :: 0 <= i < |tries| ==> tries[i].Sent() ==> tries[i].Rotated()
    ensures Trace(w, log, tries + [next], request, rounds)
  {
    hide SelectOf, AttemptOf, Run, Turn, GoesOn, From;
    var more := tries + [next];
    forall i | 0 <= i < |more|
      ensures Turn(w, log, From(more, i), more[i], request, rounds(i))
    {
      FromKept(tries, next, i);
      if i == |tries| {
        assert more[i] == next;
      } else {
        assert more[i] == tries[i];
      }
    }
    GoesOnExtended(tries, next);
  }

  lemma FromKept(tries: seq<Try>, next: Try, i: nat)
    requires i <= |tries|
    ensures From(tries + [next], i) == From(tries, i)
  {
  }

  lemma GoesOnExtended(tries: seq<Try>, next: Try)
    requires forall i :: 0 <= i < |tries| ==> tries[i].Sent() ==> tries[i].Rotated()
    ensures GoesOn(tries + [next])
  {
    var more := tries + [next];
    forall i | 0 <= i < |more| - 1
      ensures more[i].Sent() ==> more[i].Rotated()
    {
      assert more[i] == tries[i];
    }
  }

  lemma LastTerminalStep(tries: seq<Try>, next: Try)
    ensures LastTerminal(tries + [next]) == if next.Rotated() then next.outcome.value.terminal else LastTerminal(tries)
  {
    assert (tries + [next])[..|tries|] == tries;
  }

  // ---- What every turn promises ----

  lemma {:induction false} PendingKept(w: World, steps: seq<Step>, call: CallId)
    requires Foreign(steps, call) && call in w.pending
    ensures call in Run(w, steps).pending && Run(w, steps).pending[call] == w.pending[call]
  {
    hide Begin, Commit;
    if steps != [] {
      var init := steps[..|steps| - 1];
      assert Foreign(init, call) by {
        assert forall i :: 0 <= i < |init| ==> init[i] == steps[i];
      }
      PendingKept(w, init, call);
    }
  }

  /** Selecting changes the router as its two sections do, and a sub it returns serves the request, unquarantined. */
  lemma SelectedServes(w: World, request: Request, round: Round)
    requires Foreign(round.between, request.call)
    ensures var (steps, selection) := SelectOf(w, request, round);
            selection.Ok? ==>
              && Serves(request.provider, round.subs, request.pool, selection.value.sub)
              && selection.value.sub !in Run(w, steps).router.exhausted
              && Run(w, steps).router.current[request.provider.Index()] == Some(selection.value.sub)
              && selection.value.candidates > 0
  {
    hide Begin, Commit, Serves, Run, Admissible;
    var w1 := Run(w, round.wait);
    var began := Begins(request, round);
    var log1 := round.wait + Own(began);
    RunOwn(w, round.wait, began);
    var (after, begun) :=
      Begin(w1.router, request.provider, round.subs, request.hints, request.pool, w1.clock - round.lag);
    BeginSound(w1.router, request.provider, round.subs, request.hints, request.pool, w1.clock - round.lag);
    if begun.Proceed? {
      var log2 := log1 + round.between;
      RunAppend(w, log1, round.between);
      PendingKept(Run(w, log1), round.between, request.call);
      var w2 := Run(w, log2);
      RunOwn(w, log2, Committed(request.call, round.scores));
      SelectSound(w1.router, w2.router, request.provider, round.subs, request.hints, request.pool, w1.clock - round.lag,
                  round.scores, w2.clock);
    }
  }

  /**
   * Every attempted sub is admitted by the pool resolved at the start and was not quarantined when chosen, and
   * every rotation leaves its sub quarantined.
   */
  lemma {:induction false} TurnServes(w: World, log: seq<Step>, from: nat, t: Try, request: Request, round: Round)
    requires Turn(w, log, from, t, request, round) && Foreign(round.between, request.call)
    ensures Serves(request.provider, round.subs, request.pool, t.sub) && t.candidates > 0
    ensures t.sub !in Run(w, log[..t.chosenAt]).router.exhausted
    ensures t.Rotated() ==> RotatedAfter(w, log[..t.endedAt], t.sub, t.outcome.value.terminal)
  {
    hide SelectOf, AttemptOf, Run, Serves;
    var here := Run(w, log[..from]);
    SelectedServes(here, request, round);
    assert log[..t.chosenAt] == log[..from] + log[from..t.chosenAt];
    RunAppend(w, log[..from], log[from..t.chosenAt]);
    if t.Rotated() {
      var chosen := Run(w, log[..t.chosenAt]);
      AttemptRotates(chosen, t.sub, round.inputs);
      assert log[..t.endedAt] == log[..t.chosenAt] + log[t.chosenAt..t.endedAt];
      RunAppend(w, log[..t.chosenAt], log[t.chosenAt..t.endedAt]);
    }
  }

  // ---- No sub is tried twice ----

  /** What may end a quarantine: clearing it, a lift, or a section that sweeps once its end has passed. */
  ghost predicate Releases(w: World, step: Step, sub: SubId)
    requires sub in w.router.exhausted
  {
    var quarantine := w.router.exhausted[sub];
    var now := w.clock + step.tick;
    match step.event
    case Cleared(cleared) => cleared == sub
    case Lifted(lifted, seen) => quarantine.until <= now || (lifted == sub && AllClearOrFallen(quarantine, seen))
    case Observed => quarantine.until <= now
    case Began(_, _, _, _, _, lag) => quarantine.until <= now - lag
    case _ => false
  }

  lemma StaysQuarantined(w: World, step: Step, sub: SubId)
    requires sub in w.router.exhausted
    ensures sub !in Apply(w, step).router.exhausted <==> Releases(w, step, sub)
  {
    hide Begin, Commit, ExhaustUntil, EffectivePct, Recovered, AllClearOrFallen;
    var now := w.clock + step.tick;
    match step.event {
      case Lifted(_, seen) => RecoveredExactly(w.router.exhausted[sub], seen);
      case Began(call, provider, subs, hints, pool, lag) =>
        BeginSound(w.router, provider, subs, hints, pool, now - lag);
      case Committed(call, scores) =>
        if call in w.pending {
          var p := w.pending[call];
          CommitKeepsQuarantined(w.router, p.provider, p.live, p.settings, scores, now, sub);
        }
      case _ =>
    }
  }

  lemma CommitKeepsQuarantined(s: State, provider: Provider, live: seq<SubStatus>, settings: Settings,
                               scores: seq<Option<Usage>>, now: Timestamp, sub: SubId)
    requires sub in s.exhausted
    ensures sub in Commit(s, provider, live, settings, scores, now).0.exhausted
  {
    hide CandidatesOf, Pick, NextReset, Renewed;
    ScoreEffect(s, live, scores, now);
  }

  /** Between being quarantined and not being so, some step released it. */
  lemma {:induction false} SomeStepReleased(w: World, log: seq<Step>, from: nat, end: nat, sub: SubId)
    requires from <= end <= |log|
    requires sub in Run(w, log[..from]).router.exhausted && sub !in Run(w, log[..end]).router.exhausted
    ensures exists n: nat :: from <= n < end && sub in Run(w, log[..n]).router.exhausted
              && Releases(Run(w, log[..n]), log[n], sub)
    decreases end
  {
    hide Apply, Releases;
    assert from < end;
    assert log[..end][..end - 1] == log[..end - 1];
    if sub in Run(w, log[..end - 1]).router.exhausted {
      StaysQuarantined(Run(w, log[..end - 1]), log[end - 1], sub);
    } else {
      SomeStepReleased(w, log, from, end - 1, sub);
    }
  }

  lemma TurnBounds(w: World, log: seq<Step>, tries: seq<Try>, request: Request, rounds: nat -> Round, i: nat)
    requires Trace(w, log, tries, request, rounds) && i < |tries|
    ensures From(tries, i) <= tries[i].chosenAt <= tries[i].endedAt <= |log|
  {
    hide SelectOf, AttemptOf, Run;
  }

  lemma {:induction false} TurnsInOrder(w: World, log: seq<Step>, tries: seq<Try>, request: Request,
                                        rounds: nat -> Round, i: nat, j: nat)
    requires Trace(w, log, tries, request, rounds) && i < j < |tries|
    ensures tries[i].endedAt <= tries[j].chosenAt <= |log|
    decreases j
  {
    hide Trace;
    TurnBounds(w, log, tries, request, rounds, j);
    if i < j - 1 {
      TurnsInOrder(w, log, tries, request, rounds, i, j - 1);
      TurnBounds(w, log, tries, request, rounds, j - 1);
    }
  }

  /**
   * A sub that rotated is chosen again only after a step in between released it: a clear, a lift, or a section
   * that swept its quarantine once its end had passed.
   */
  lemma NoSubTwice(w: World, log: seq<Step>, tries: seq<Try>, request: Request, rounds: nat -> Round, i: nat, j: nat)
    requires Trace(w, log, tries, request, rounds) && (forall n: nat :: Foreign(rounds(n).between, request.call))
    requires i < j < |tries| && tries[i].Sent() && tries[j].sub == tries[i].sub
    ensures exists n: nat :: tries[i].endedAt <= n < tries[j].chosenAt <= |log|
                        && tries[i].sub in Run(w, log[..n]).router.exhausted
                        && Releases(Run(w, log[..n]), log[n], tries[i].sub)
  {
    hide SelectOf, AttemptOf, Run, Foreign, Releases;
    assert tries[i].Rotated();
    TurnServes(w, log, From(tries, i), tries[i], request, rounds(i));
    TurnServes(w, log, From(tries, j), tries[j], request, rounds(j));
    TurnsInOrder(w, log, tries, request, rounds, i, j);
    SomeStepReleased(w, log, tries[i].endedAt, tries[j].chosenAt, tries[i].sub);
  }

  // ---- Switching forbidden ----

  ghost predicate NeverAllowsSwitching(w: World, log: seq<Step>) {
    && !w.router.settings.autoSwitch
    && forall i :: 0 <= i < |log| && log[i].event.SettingsSet? ==> !log[i].event.settings.autoSwitch
  }

  lemma {:induction false} SwitchingStaysOff(w: World, log: seq<Step>, n: nat)
    requires NeverAllowsSwitching(w, log) && n <= |log|
    ensures !Run(w, log[..n]).router.settings.autoSwitch
  {
    hide Begin, Commit;
    if n > 0 {
      SwitchingStaysOff(w, log, n - 1);
      assert log[..n][..n - 1] == log[..n - 1];
      SettingsKept(Run(w, log[..n - 1]), log[n - 1]);
    }
  }

  lemma SettingsKept(w: World, step: Step)
    ensures Apply(w, step).router.settings == if step.event.SettingsSet? then step.event.settings else w.router.settings
  {
    hide Commit, Begin, ExhaustUntil, EffectivePct, Filter, Renewed;
    var now := w.clock + step.tick;
    match step.event {
      case Began(call, provider, subs, hints, pool, lag) =>
        BeginOnlySets(w.router, provider, subs, hints, pool, now - lag);
      case Committed(call, scores) =>
        if call in w.pending {
          CommitKeepsSettings(w.router, w.pending[call], scores, now);
        }
      case _ =>
    }
  }

  lemma CommitKeepsSettings(s: State, p: Pending, scores: seq<Option<Usage>>, now: Timestamp)
    ensures Commit(s, p.provider, p.live, p.settings, scores, now).0.settings == s.settings
  {
    hide CandidatesOf, Pick, NextReset, Renewed;
    ScoreEffect(s, p.live, scores, now);
  }

  /** With `auto_switch` off throughout, nothing rotates, so only the last sub selected is ever sent the request. */
  lemma OneSubWithoutSwitching(w: World, log: seq<Step>, tries: seq<Try>, request: Request, rounds: nat -> Round,
                               i: nat)
    requires Trace(w, log, tries, request, rounds) && (forall n: nat :: Foreign(rounds(n).between, request.call))
    requires NeverAllowsSwitching(w, log) && i < |tries|
    ensures !tries[i].Rotated()
    ensures tries[i].Sent() ==> i == |tries| - 1
  {
    hide SelectOf, AttemptOf, Run, Foreign;
    if tries[i].Rotated() {
      TurnServes(w, log, From(tries, i), tries[i], request, rounds(i));
      SwitchingStaysOff(w, log, tries[i].endedAt);
    }
  }
}
