/** The router under any interleaving: lock sections of any number of callers, as steps of one run. */
module RouterWorld {
  import opened Prelude
  import opened Balance
  import opened Strategy
  import opened Router
  import opened RouterRuns

  type CallId = nat

  /** One lock section. A select is two: `Began` and, if it had to ask for usage or rank, `Committed`. */
  datatype Event =
    | Exhausted(sub: SubId, usage: Option<Usage>)
    | Failed(sub: SubId, failure: FailureClass, usage: Option<Usage>)
    | Lifted(sub: SubId, seen: Usage)
    | Cleared(sub: SubId)
    | Observed
    | PinSet(pin: Option<SubId>)
    | CurrentCleared(provider: Provider)
    | SettingsSet(settings: Settings)
    | Began(call: CallId, provider: Provider, subs: seq<SubStatus>, hints: Hints, pool: Option<PoolGate>, lag: nat)
    | Committed(call: CallId, scores: seq<Option<Usage>>)

  /** Time passes, then one section runs. */
  datatype Step = Step(tick: nat, event: Event)

  /** What a select carries over its usage round. */
  datatype Pending = Pending(provider: Provider, live: seq<SubStatus>, settings: Settings)

  datatype World = World(router: State, clock: Timestamp, pending: map<CallId, Pending>)

  function Apply(w: World, step: Step): World {
    var now := w.clock + step.tick;
    var s := w.router;
    var timed := w.(clock := now);
    match step.event
    case Exhausted(sub, usage) => timed.(router := Exhaust(s, sub, usage, now))
    case Failed(sub, failure, usage) => timed.(router := OnFailure(s, sub, failure, usage, now).0)
    case Lifted(sub, usage) => timed.(router := Lift(s, sub, usage, now).0)
    case Cleared(sub) => timed.(router := Clear(s, sub))
    case Observed => timed.(router := Sweep(s, now))
    case PinSet(pin) => timed.(router := s.(pinned := pin))
    case CurrentCleared(provider) => timed.(router := s.(current := s.current[provider.Index() := None]))
    case SettingsSet(settings) => timed.(router := SettingsApplied(s, settings))
    case Began(call, provider, subs, hints, pool, lag) =>
      var (after, begun) := Begin(s, provider, subs, hints, pool, now - lag);
      timed.(router := after,
             pending := if begun.Proceed? then w.pending[call := Pending(provider, begun.live, begun.settings)]
                        else w.pending - {call})
    case Committed(call, scores) =>
      if call !in w.pending then timed
      else
        var p := w.pending[call];
        timed.(router := Commit(s, p.provider, p.live, p.settings, scores, now).0, pending := w.pending - {call})
  }

  function Run(w: World, steps: seq<Step>): World {
    if steps == [] then w else Apply(Run(w, steps[..|steps| - 1]), steps[|steps| - 1])
  }

  function Start(settings: Settings, clock: Timestamp): World { World(Initial(settings), clock, map[]) }

  /** Every status list says of a sub the provider it belongs to. */
  ghost predicate Labelled(steps: seq<Step>, owner: SubId -> Provider) {
    forall i :: 0 <= i < |steps| ==> LabelledEvent(steps[i].event, owner)
  }

  ghost predicate LabelledEvent(event: Event, owner: SubId -> Provider) {
    event.Began? ==> forall status :: status in event.subs ==> owner(status.sub) == status.provider
  }

  /** The sub held for a provider is one of its own and is not quarantined; so is the round-robin cursor its own. */
  ghost predicate SlotsOk(s: State, owner: SubId -> Provider) {
    forall p: Provider ::
      && (s.current[p.Index()].Some? ==>
           owner(s.current[p.Index()].value) == p && s.current[p.Index()].value !in s.exhausted)
      && (s.cursors[p.Index()].Some? ==> owner(s.cursors[p.Index()].value) == p)
  }

  ghost predicate WorldOk(w: World, owner: SubId -> Provider) {
    && SlotsOk(w.router, owner)
    && forall call :: call in w.pending ==>
         forall sub :: Holds(w.pending[call].live, sub) ==> owner(sub) == w.pending[call].provider
  }

  lemma FewerQuarantined(s: State, fewer: map<SubId, Quarantine>, owner: SubId -> Provider)
    requires SlotsOk(s, owner) && fewer.Keys <= s.exhausted.Keys
    ensures SlotsOk(s.(exhausted := fewer), owner)
  {
  }

  lemma ExhaustKeepsSlots(s: State, sub: SubId, usage: Option<Usage>, now: Timestamp, owner: SubId -> Provider)
    requires SlotsOk(s, owner)
    ensures SlotsOk(Exhaust(s, sub, usage, now), owner)
  {
    hide ExhaustUntil, EffectivePct;
  }

  lemma {:induction false} ScoreKeepsSlots(s: State, live: seq<SubStatus>, scores: seq<Option<Usage>>, now: Timestamp,
                                           owner: SubId -> Provider)
    requires SlotsOk(s, owner)
    ensures SlotsOk(Score(s, live, scores, now), owner)
    decreases |live|
  {
    hide Exhaust, SlotsOk;
    if live != [] {
      if ReportedExhausted(scores) {
        ExhaustKeepsSlots(s, live[0].sub, scores[0], now, owner);
      }
      var next := if ReportedExhausted(scores) then Exhaust(s, live[0].sub, scores[0], now) else s;
      ScoreKeepsSlots(next, live[1..], Rest(scores), now, owner);
    }
  }

  lemma BeginKeepsSlots(s: State, provider: Provider, subs: seq<SubStatus>, hints: Hints, pool: Option<PoolGate>,
                        now: Timestamp, owner: SubId -> Provider)
    requires SlotsOk(s, owner)
    requires forall status :: status in subs ==> owner(status.sub) == status.provider
    ensures var (after, begun) := Begin(s, provider, subs, hints, pool, now);
            && SlotsOk(after, owner)
            && (begun.Proceed? ==> forall sub :: Holds(begun.live, sub) ==> owner(sub) == provider)
  {
    hide Admissible, Filter, NextReset;
    BeginSound(s, provider, subs, hints, pool, now);
    var swept := Sweep(s, now);
    FewerQuarantined(s, swept.exhausted, owner);
    forall sub | Serves(provider, subs, pool, sub)
      ensures owner(sub) == provider
    {
      var status :| status in subs && status.sub == sub && Fit(provider, pool, status);
    }
    BeginOnlySets(s, provider, subs, hints, pool, now);
  }

  /** A first section changes no more of the slots than the one it chooses for. */
  lemma BeginOnlySets(s: State, provider: Provider, subs: seq<SubStatus>, hints: Hints, pool: Option<PoolGate>,
                      now: Timestamp)
    ensures var (after, begun) := Begin(s, provider, subs, hints, pool, now);
            && after.cursors == s.cursors && after.settings == s.settings && after.pinned == s.pinned
            && (forall p: Provider :: after.current[p.Index()] ==
                  if p == provider && begun.Chosen? then Some(begun.selection.sub) else s.current[p.Index()])
  {
    hide Admissible, Filter, NextReset, Holds;
  }

  lemma CommitKeepsSlots(s: State, provider: Provider, live: seq<SubStatus>, settings: Settings,
                         scores: seq<Option<Usage>>, now: Timestamp, owner: SubId -> Provider)
    requires SlotsOk(s, owner)
    requires forall sub :: Holds(live, sub) ==> owner(sub) == provider
    ensures SlotsOk(Commit(s, provider, live, settings, scores, now).0, owner)
  {
    hide Score, SlotsOk, NextReset;
    var scored := if settings.strategy.NeedsUsage() then Score(s, live, scores, now) else s;
    ScoreKeepsSlots(s, live, scores, now, owner);
    var candidates := CandidatesOf(scored.exhausted, live, scores);
    if candidates != [] {
      var (index, cursor) := Pick(settings.strategy, candidates, scored.cursors[provider.Index()]);
      CandidatesAreLive(scored.exhausted, live, scores);
      assert Offers(candidates, candidates[index].sub);
      assert cursor == Some(candidates[index].sub) || cursor == scored.cursors[provider.Index()];
      SlotSet(scored, provider, candidates[index].sub, cursor, owner);
    }
  }

  lemma SlotSet(s: State, provider: Provider, sub: SubId, cursor: Option<SubId>, owner: SubId -> Provider)
    requires SlotsOk(s, owner) && owner(sub) == provider && sub !in s.exhausted
    requires cursor == Some(sub) || cursor == s.cursors[provider.Index()]
    ensures var i := provider.Index();
            SlotsOk(s.(current := s.current[i := Some(sub)], cursors := s.cursors[i := cursor]), owner)
  {
  }

  lemma StepKeeps(w: World, step: Step, owner: SubId -> Provider)
    requires WorldOk(w, owner) && LabelledEvent(step.event, owner)
    ensures WorldOk(Apply(w, step), owner)
  {
    hide SlotsOk, Begin, Commit, Exhaust, Holds;
    var now := w.clock + step.tick;
    var s := w.router;
    match step.event {
      case Exhausted(sub, usage) => ExhaustKeepsSlots(s, sub, usage, now, owner);
      case Failed(sub, failure, usage) => ExhaustKeepsSlots(s, sub, usage, now, owner);
      case Lifted(sub, usage) =>
        FewerQuarantined(s, Lift(s, sub, usage, now).0.exhausted, owner);
      case Cleared(sub) => FewerQuarantined(s, Clear(s, sub).exhausted, owner);
      case Observed => FewerQuarantined(s, Sweep(s, now).exhausted, owner);
      case PinSet(pin) => SlotsSame(s, s.(pinned := pin), owner);
      case CurrentCleared(provider) => SlotsSame(s, s.(current := s.current[provider.Index() := None]), owner);
      case SettingsSet(settings) => SlotsSame(s, SettingsApplied(s, settings), owner);
      case Began(call, provider, subs, hints, pool, lag) =>
        BeginKeepsSlots(s, provider, subs, hints, pool, now - lag, owner);
      case Committed(call, scores) =>
        if call in w.pending {
          var p := w.pending[call];
          CommitKeepsSlots(s, p.provider, p.live, p.settings, scores, now, owner);
        }
    }
  }

  lemma SlotsSame(s: State, t: State, owner: SubId -> Provider)
    requires SlotsOk(s, owner) && t.exhausted == s.exhausted
    requires forall i :: 0 <= i < 2 ==>
               && (t.current[i] == s.current[i] || t.current[i] == None)
               && (t.cursors[i] == s.cursors[i] || t.cursors[i] == None)
    ensures SlotsOk(t, owner)
  {
  }

  /**
   * In every state any run reaches, the sub held as current for a provider belongs to it and is not
   * quarantined.
   */
  lemma {:induction false} CurrentIsNeverQuarantined(settings: Settings, clock: Timestamp, steps: seq<Step>,
                                                     owner: SubId -> Provider)
    requires Labelled(steps, owner)
    ensures WorldOk(Run(Start(settings, clock), steps), owner)
  {
    hide Apply;
    if steps != [] {
      var init := steps[..|steps| - 1];
      assert Labelled(init, owner) by {
        assert forall i :: 0 <= i < |init| ==> init[i] == steps[i];
      }
      CurrentIsNeverQuarantined(settings, clock, init, owner);
      StepKeeps(Run(Start(settings, clock), init), steps[|steps| - 1], owner);
    }
  }

  // ---- Every quarantine has a beginning ----

  /** The steps that quarantine a sub: reporting it, a failure of its credentials or its allowance, its figures. */
  ghost predicate Quarantines(w: World, step: Step, sub: SubId) {
    match step.event
    case Exhausted(id, _) => id == sub
    case Failed(id, failure, _) =>
      id == sub && (failure.UsageLimit? || failure.AuthPermanent? || failure.RefreshPermanent?)
    case Committed(call, scores) =>
      && call in w.pending
      && (w.pending[call].settings.strategy.LowestUsage? || w.pending[call].settings.strategy.HighestUsage?)
      && SaidUsedUp(w.pending[call].live, scores, sub)
    case _ => false
  }

  /** These steps quarantine the sub past their own time; no other step records or changes its quarantine. */
  lemma QuarantinesExactly(w: World, step: Step, sub: SubId)
    ensures var next := Apply(w, step);
            && next.clock == w.clock + step.tick
            && (Quarantines(w, step, sub) ==>
                  sub in next.router.exhausted && next.router.exhausted[sub].until > next.clock)
            && (!Quarantines(w, step, sub) && sub in next.router.exhausted ==>
                  sub in w.router.exhausted && next.router.exhausted[sub] == w.router.exhausted[sub])
  {
    hide Begin, Commit, ExhaustUntil, EffectivePct, SaidUsedUp;
    var now := w.clock + step.tick;
    match step.event {
      case Exhausted(_, usage) => QuarantineEnd(now, usage);
      case Failed(_, _, usage) => QuarantineEnd(now, usage);
      case Began(call, provider, subs, hints, pool, lag) =>
        BeginSound(w.router, provider, subs, hints, pool, now - lag);
      case Committed(call, scores) =>
        if call in w.pending {
          var p := w.pending[call];
          CommitQuarantines(w.router, p.provider, p.live, p.settings, scores, now, sub);
        }
      case _ =>
    }
  }

  lemma CommitQuarantines(s: State, provider: Provider, live: seq<SubStatus>, settings: Settings,
                          scores: seq<Option<Usage>>, now: Timestamp, sub: SubId)
    ensures var after := Commit(s, provider, live, settings, scores, now).0;
            var said := settings.strategy.NeedsUsage() && SaidUsedUp(live, scores, sub);
            && (said ==> sub in after.exhausted && after.exhausted[sub].until > now)
            && (!said ==> (sub in after.exhausted <==> sub in s.exhausted))
            && (!said && sub in after.exhausted ==> after.exhausted[sub] == s.exhausted[sub])
  {
    hide CandidatesOf, Pick, NextReset, Renewed, SaidUsedUp;
    ScoreEffect(s, live, scores, now);
    RenewedIfSaid(live, scores, sub);
  }

  /**
   * Every quarantine any run ends with was recorded by one of its steps, has stood unchanged since, and was
   * given an end strictly later than that step's time.
   */
  lemma {:induction false} QuarantineWasRecorded(settings: Settings, clock: Timestamp, steps: seq<Step>, sub: SubId)
    requires sub in Run(Start(settings, clock), steps).router.exhausted
    ensures exists n :: 0 < n <= |steps| && RecordedAt(Start(settings, clock), steps, sub, n)
  {
    hide Apply;
    var start := Start(settings, clock);
    var last := |steps| - 1;
    assert steps != [];
    QuarantinesExactly(Run(start, steps[..last]), steps[last], sub);
    var end := Run(start, steps).router.exhausted[sub];
    var prior := Run(start, steps[..last]).router.exhausted;
    if sub !in prior || prior[sub] != end {
      assert steps[..|steps|] == steps;
      assert RecordedAt(start, steps, sub, |steps|);
    } else {
      QuarantineWasRecorded(settings, clock, steps[..last], sub);
      var n :| 0 < n <= last && RecordedAt(start, steps[..last], sub, n);
      assert Run(start, steps[..last]).router.exhausted[sub] == end;
      assert steps[..last][..last] == steps[..last];
      assert Run(start, steps[..last][..last]).router.exhausted[sub]
        == Run(start, steps[..last][..n]).router.exhausted[sub];
      forall k | n <= k <= |steps|
        ensures sub in Run(start, steps[..k]).router.exhausted && Run(start, steps[..k]).router.exhausted[sub] == end
      {
        if k <= last {
          assert steps[..last][..k] == steps[..k];
        } else {
          assert steps[..k] == steps;
        }
      }
      assert steps[..last][..n] == steps[..n];
      assert steps[..last][..n - 1] == steps[..n - 1];
      assert RecordedAt(start, steps, sub, n);
    }
  }

  /** Step `n` recorded the quarantine, with an end later than its own time, and it stands unchanged since. */
  ghost predicate RecordedAt(start: World, steps: seq<Step>, sub: SubId, n: nat)
    requires 0 < n <= |steps|
  {
    var prior := Run(start, steps[..n - 1]).router.exhausted;
    && sub in Run(start, steps[..n]).router.exhausted
    && Quarantines(Run(start, steps[..n - 1]), steps[n - 1], sub)
    && (sub in prior ==> prior[sub] != Run(start, steps[..n]).router.exhausted[sub])
    && Run(start, steps[..n]).router.exhausted[sub].until > Run(start, steps[..n]).clock
    && forall k :: n <= k <= |steps| ==>
         sub in Run(start, steps[..k]).router.exhausted
         && Run(start, steps[..k]).router.exhausted[sub] == Run(start, steps[..n]).router.exhausted[sub]
  }

  // ---- A refusal that comes too late ----

  /** One request begins over a single sub, another caller quarantines the sub, and the first commits as that ends. */
  function StaleRun(status: SubStatus): seq<Step> {
    [Step(0, Began(0, status.provider, [status], Hints(None, None), None, 0)), Step(0, Exhausted(status.sub, None))]
  }

  /**
   * After that run the commit refuses, naming a reset that is already over, although a select that began now would
   * go on: it alone sweeps.
   */
  lemma StaleRefusal(settings: Settings, clock: Timestamp, status: SubStatus)
    requires !settings.strategy.NeedsUsage() && status.provider in settings.proxied && IsUsable(status.provider)(status)
    ensures var w := Run(Start(settings, clock), StaleRun(status));
            var now := w.clock + BLIND_EXHAUSTION;
            && 0 in w.pending
            && (var p := w.pending[0];
                Commit(w.router, p.provider, p.live, p.settings, [], now).1
                == Err(AllExhausted(status.provider, Some(now))))
            && Begin(w.router, status.provider, [status], Hints(None, None), None, now).1.Proceed?
  {
    hide Pick, CandidatesOf, Run, Apply, Begin;
    var start := Start(settings, clock);
    var (began, exhausted) := (StaleRun(status)[0], StaleRun(status)[1]);
    var w1 := Run(start, [began]);
    RunOfOne(start, began);
    OneUsable(start.router, status, clock);
    BeganApplies(start, status);
    RunOfTwo(start, began, exhausted);
    var w := Run(start, StaleRun(status));
    BlindEnd(clock);
    ExhaustedApplies(w1, status.sub);
    var now := clock + BLIND_EXHAUSTION;
    CandidatesStep(w.router.exhausted, [status], []);
    NoCandidatesOf(w.router.exhausted, []);
    assert [status][1..] == [];
    assert NextReset([status], w.router.exhausted) == Some(now) by {
      assert NextReset([status][1..], w.router.exhausted) == None;
    }
    OneUsable(w.router, status, now);
  }

  lemma RunOfOne(w: World, step: Step)
    ensures Run(w, [step]) == Apply(w, step)
  {
    hide Apply;
    assert [step][..0] == [];
  }

  lemma RunOfTwo(w: World, a: Step, b: Step)
    ensures Run(w, [a, b]) == Apply(Run(w, [a]), b)
  {
    hide Apply;
    assert [a, b][..1] == [a];
  }

  lemma BlindEnd(now: Timestamp)
    ensures ExhaustUntil(now, None) == now + BLIND_EXHAUSTION
  {
    assert FullWindows([]) == [] && LatestReset([]) == None && EarliestReset([]) == None;
  }

  /** A single usable sub that is neither pinned nor current is left for ranking. */
  lemma OneUsable(s: State, status: SubStatus, now: Timestamp)
    requires status.provider in s.settings.proxied && IsUsable(status.provider)(status)
    requires s.pinned == None && s.current[status.provider.Index()] == None
    requires status.sub in s.exhausted ==> s.exhausted[status.sub].until <= now
    ensures Begin(s, status.provider, [status], Hints(None, None), None, now)
         == (Sweep(s, now), Proceed([status], s.settings))
  {
    assert [status][1..] == [];
    assert Filter(IsUsable(status.provider), [status]) == [status];
    assert Filter(IsLive(Sweep(s, now).exhausted), [status]) == [status];
  }

  lemma BeganApplies(w: World, status: SubStatus)
    requires Begin(w.router, status.provider, [status], Hints(None, None), None, w.clock)
          == (Sweep(w.router, w.clock), Proceed([status], w.router.settings))
    ensures Apply(w, StaleRun(status)[0])
         == w.(router := Sweep(w.router, w.clock),
               pending := w.pending[0 := Pending(status.provider, [status], w.router.settings)])
  {
    hide Begin;
  }

  lemma ExhaustedApplies(w: World, sub: SubId)
    ensures Apply(w, Step(0, Exhausted(sub, None))) == w.(router := Exhaust(w.router, sub, None, w.clock))
  {
    hide Exhaust;
  }
}
