/** What the router keeps over every interleaving of its lock sections, and what a select promises. */
module RouterRuns {
  import opened Prelude
  import opened Balance
  import opened Strategy
  import opened Router

  // ---- One select, whatever runs between its two sections ----

  /** Enabled, logged in, and of this provider. */
  predicate Ready(provider: Provider, status: SubStatus) {
    status.provider == provider && status.enabled && !status.needsLogin
  }

  predicate InPool(pool: Option<PoolGate>, status: SubStatus) {
    pool.Some? && pool.value.members.Some? ==> status.sub in pool.value.members.value
  }

  /** Each percentage that is known lies below the pool's ceiling. */
  predicate BelowCeilings(pool: Option<PoolGate>, status: SubStatus) {
    pool.Some? ==>
      && (status.sessionPct.Some? ==> status.sessionPct.value < pool.value.maxSessionPct)
      && (status.weeklyPct.Some? ==> status.weeklyPct.value < pool.value.maxWeeklyPct)
  }

  /** A sub with this status may serve a request on this pool. */
  predicate Fit(provider: Provider, pool: Option<PoolGate>, status: SubStatus) {
    Ready(provider, status) && InPool(pool, status) && BelowCeilings(pool, status)
  }

  ghost predicate Serves(provider: Provider, subs: seq<SubStatus>, pool: Option<PoolGate>, sub: SubId) {
    exists status :: status in subs && status.sub == sub && Fit(provider, pool, status)
  }

  /** Quarantined, and for longer than until `now`. */
  predicate Held(s: State, sub: SubId, now: Timestamp) { sub in s.exhausted && s.exhausted[sub].until > now }

  lemma AdmissibleServes(provider: Provider, subs: seq<SubStatus>, pool: Option<PoolGate>)
    requires Admissible(provider, subs, pool).Ok?
    ensures forall status :: status in Admissible(provider, subs, pool).value <==>
              status in subs && Fit(provider, pool, status)
  {
  }

  /** Why no status is left, when none is. */
  lemma NoneAdmissible(provider: Provider, subs: seq<SubStatus>, pool: Option<PoolGate>)
    ensures var admissible := Admissible(provider, subs, pool);
            if forall status :: status in subs ==> !Ready(provider, status) then
              admissible == Err(NoCandidates(provider))
            else if forall status :: status in subs && Ready(provider, status) ==> !InPool(pool, status) then
              admissible == Err(PoolEmpty(pool.value.name, false))
            else if forall status :: status in subs ==> !Fit(provider, pool, status) then
              admissible
              == Err(PoolEmpty(pool.value.name, pool.value.maxSessionPct < 100.0 || pool.value.maxWeeklyPct < 100.0))
            else admissible.Ok?
  {
    var usable := Filter(IsUsable(provider), subs);
    assert forall status :: status in usable <==> status in subs && Ready(provider, status);
    if pool.Some? {
      var members := Filter(IsMember(pool.value), usable);
      var admitted := Filter(IsAdmitted(pool.value), members);
      assert forall status :: status in members <==> status in usable && InPool(pool, status);
      assert forall status :: status in admitted <==> status in members && BelowCeilings(pool, status);
      assert members != [] ==> members[0] in members;
      assert admitted != [] ==> admitted[0] in admitted;
    }
    assert usable != [] ==> usable[0] in usable;
  }

  /** The subs a select goes on with are usable, in the pool, and not quarantined when it began. */
  lemma BeginSound(s: State, provider: Provider, subs: seq<SubStatus>, hints: Hints, pool: Option<PoolGate>,
                   now: Timestamp)
    ensures var (after, begun) := Begin(s, provider, subs, hints, pool, now);
            && after.exhausted == Sweep(s, now).exhausted
            && (begun.Proceed? ==>
                  && begun.live != []
                  && forall sub :: Holds(begun.live, sub) ==>
                       sub !in after.exhausted && Serves(provider, subs, pool, sub))
            && (begun.Chosen? ==>
                  && Serves(provider, subs, pool, begun.selection.sub)
                  && begun.selection.sub !in after.exhausted
                  && after.current[provider.Index()] == Some(begun.selection.sub)
                  && begun.selection.candidates > 0)
  {
    hide Serves, Admissible, Filter, NextReset;
    var swept := Sweep(s, now);
    if provider in swept.settings.proxied && Admissible(provider, subs, pool).Ok? {
      LiveServes(swept.exhausted, provider, subs, pool);
    }
  }

  lemma LiveServes(exhausted: map<SubId, Quarantine>, provider: Provider, subs: seq<SubStatus>, pool: Option<PoolGate>)
    requires Admissible(provider, subs, pool).Ok?
    ensures var live := Filter(IsLive(exhausted), Admissible(provider, subs, pool).value);
            forall sub :: Holds(live, sub) ==> sub !in exhausted && Serves(provider, subs, pool, sub)
  {
    AdmissibleServes(provider, subs, pool);
    var live := Filter(IsLive(exhausted), Admissible(provider, subs, pool).value);
    forall sub | Holds(live, sub)
      ensures sub !in exhausted && Serves(provider, subs, pool, sub)
    {
      var i :| 0 <= i < |live| && live[i].sub == sub;
      assert live[i] in live;
    }
  }

  lemma HeldAfterSweep(s: State, now: Timestamp)
    ensures forall sub :: sub in Sweep(s, now).exhausted <==> Held(s, sub, now)
    ensures forall sub :: Held(s, sub, now) ==> Sweep(s, now).exhausted[sub] == s.exhausted[sub]
  {
  }

  /**
   * A select that returns a sub returns one that is enabled, logged in, of the provider, in the pool and below its
   * ceilings, and not quarantined at the moment it is made current, whatever state it resumes in.
   */
  lemma SelectSound(before: State, between: State, provider: Provider, subs: seq<SubStatus>, hints: Hints,
                    pool: Option<PoolGate>, began: Timestamp, scores: seq<Option<Usage>>, now: Timestamp)
    ensures var (_, begun) := Begin(before, provider, subs, hints, pool, began);
            && (begun.Chosen? ==>
                  && Serves(provider, subs, pool, begun.selection.sub)
                  && !Held(before, begun.selection.sub, began)
                  && begun.selection.candidates > 0)
            && (begun.Proceed? ==>
                  forall sub :: Holds(begun.live, sub) ==>
                    Serves(provider, subs, pool, sub) && !Held(before, sub, began))
    ensures var begun := Begin(before, provider, subs, hints, pool, began).1;
            begun.Proceed? ==>
              var (after, result) := Commit(between, provider, begun.live, begun.settings, scores, now);
              && (result.Ok? ==>
                    && Serves(provider, subs, pool, result.value.sub)
                    && result.value.sub !in after.exhausted
                    && after.current[provider.Index()] == Some(result.value.sub)
                    && 0 < result.value.candidates <= |begun.live|)
              && (result.Err? ==>
                    && result.error.AllExhausted?
                    && forall i :: 0 <= i < |begun.live| ==> begun.live[i].sub in after.exhausted)
  {
    hide Begin, Admissible, Score, Sweep, Serves, Held;
    BeginSound(before, provider, subs, hints, pool, began);
    HeldAfterSweep(before, began);
    var begun := Begin(before, provider, subs, hints, pool, began).1;
    if begun.Proceed? {
      CommitSound(between, provider, begun.live, begun.settings, scores, now);
      var (after, result) := Commit(between, provider, begun.live, begun.settings, scores, now);
      if result.Ok? {
        var i :| 0 <= i < |begun.live| && begun.live[i].sub == result.value.sub;
      }
    }
  }

  /** When a first section refuses, and for which reason: said of the list, the pool and the quarantines alone. */
  lemma RefusedExactly(s: State, provider: Provider, subs: seq<SubStatus>, hints: Hints, pool: Option<PoolGate>,
                       now: Timestamp)
    ensures var begun := Begin(s, provider, subs, hints, pool, now).1;
            if provider !in s.settings.proxied then begun == Refused(NotProxied(provider))
            else if forall status :: status in subs ==> !Ready(provider, status) then
              begun == Refused(NoCandidates(provider))
            else if forall status :: status in subs && Ready(provider, status) ==> !InPool(pool, status) then
              begun == Refused(PoolEmpty(pool.value.name, false))
            else if forall status :: status in subs ==> !Fit(provider, pool, status) then
              begun == Refused(PoolEmpty(pool.value.name,
                                         pool.value.maxSessionPct < 100.0 || pool.value.maxWeeklyPct < 100.0))
            else if forall status :: status in subs && Fit(provider, pool, status) ==> Held(s, status.sub, now) then
              begun.Refused? && begun.error.AllExhausted? && begun.error.provider == provider
            else !begun.Refused?
  {
    hide Admissible, Sweep, Held, Ready, InPool, Fit, Filter, NextReset;
    NoneAdmissible(provider, subs, pool);
    HeldAfterSweep(s, now);
    SweepKeepsSettings(s, now);
    if provider in s.settings.proxied && Admissible(provider, subs, pool).Ok? {
      AdmissibleServes(provider, subs, pool);
      var usable := Admissible(provider, subs, pool).value;
      var live := Filter(IsLive(Sweep(s, now).exhausted), usable);
      assert forall status :: status in live <==> status in usable && !Held(s, status.sub, now);
      assert live != [] ==> live[0] in live;
      RefusedWithoutLive(s, provider, subs, hints, pool, now);
    }
  }

  lemma SweepKeepsSettings(s: State, now: Timestamp)
    ensures Sweep(s, now).settings == s.settings
  {
  }

  lemma RefusedWithoutLive(s: State, provider: Provider, subs: seq<SubStatus>, hints: Hints, pool: Option<PoolGate>,
                           now: Timestamp)
    requires provider in s.settings.proxied && Admissible(provider, subs, pool).Ok?
    ensures var live := Filter(IsLive(Sweep(s, now).exhausted), Admissible(provider, subs, pool).value);
            var begun := Begin(s, provider, subs, hints, pool, now).1;
            if live == [] then begun.Refused? && begun.error.AllExhausted? && begun.error.provider == provider
            else !begun.Refused?
  {
    hide Admissible, Filter, NextReset, Holds;
  }

  // ---- What the second section ranks ----

  /** The percentage the usage round brought for position `i`, if it did. */
  function FigureAt(scores: seq<Option<Usage>>, i: nat): Option<real> {
    if i < |scores| && scores[i].Some? then Some(EffectivePct(scores[i].value)) else None
  }

  /** What the ranking sees of position `i`. */
  function Seen(live: seq<SubStatus>, scores: seq<Option<Usage>>, i: nat): Candidate
    requires i < |live|
  {
    Candidate(live[i].sub, FigureAt(scores, i), live[i].inFlight, live[i].total)
  }

  /** The candidates are the positions not quarantined, each with its own figure. */
  lemma {:induction false} CandidatesAreSeen(exhausted: map<SubId, Quarantine>, live: seq<SubStatus>,
                                             scores: seq<Option<Usage>>)
    ensures forall c :: c in CandidatesOf(exhausted, live, scores) <==>
              exists i :: 0 <= i < |live| && live[i].sub !in exhausted && c == Seen(live, scores, i)
    ensures |CandidatesOf(exhausted, live, scores)| == |Filter(IsLive(exhausted), live)|
    decreases |live|
  {
    hide CandidatesOf, Seen, CandidateOf;
    if live == [] {
      NoCandidatesOf(exhausted, scores);
    } else {
      var rest := CandidatesOf(exhausted, live[1..], Rest(scores));
      var all := CandidatesOf(exhausted, live, scores);
      CandidatesAreSeen(exhausted, live[1..], Rest(scores));
      CandidatesStep(exhausted, live, scores);
      FirstSeen(live, scores);
      forall c
        ensures c in all <==> exists i :: 0 <= i < |live| && live[i].sub !in exhausted && c == Seen(live, scores, i)
      {
        if c in rest {
          var i :| 0 <= i < |live[1..]| && live[1..][i].sub !in exhausted && c == Seen(live[1..], Rest(scores), i);
          assert live[i + 1].sub !in exhausted && c == Seen(live, scores, i + 1);
        }
        if i :| 0 <= i < |live| && live[i].sub !in exhausted && c == Seen(live, scores, i) {
          if i > 0 {
            assert live[1..][i - 1].sub !in exhausted && c == Seen(live[1..], Rest(scores), i - 1);
          }
        }
      }
    }
  }

  lemma FirstSeen(live: seq<SubStatus>, scores: seq<Option<Usage>>)
    requires live != []
    ensures CandidateOf(live[0], scores) == Seen(live, scores, 0)
    ensures forall i :: 0 <= i < |live| - 1 ==> Seen(live[1..], Rest(scores), i) == Seen(live, scores, i + 1)
  {
  }

  /** Nothing at `j` comes before what is at `i`, as the strategy's name promises. */
  ghost predicate NoneBefore(kind: StrategyKind, live: seq<SubStatus>, scores: seq<Option<Usage>>,
                             last: Option<SubId>, i: nat, j: nat)
    requires i < |live| && j < |live|
  {
    var (mine, other) := (FigureAt(scores, i), FigureAt(scores, j));
    match kind
    case LowestUsage =>
      && (other.Some? ==> mine.Some? && mine.value <= other.value)
      && (mine == other ==> live[i].inFlight <= live[j].inFlight)
    case HighestUsage =>
      && (other.Some? && other.value < 100.0 ==> mine.Some? && other.value <= mine.value < 100.0)
      && (other.None? ==> mine.None? || mine.value < 100.0)
      && (mine == other ==> live[i].inFlight <= live[j].inFlight)
    case LeastConnections =>
      && live[i].inFlight <= live[j].inFlight
      && (live[i].inFlight == live[j].inFlight ==> live[i].total <= live[j].total)
    case RoundRobin =>
      && (last.Some? && live[j].sub > last.value ==> last.value < live[i].sub <= live[j].sub)
      && (last.None? || live[i].sub <= last.value ==> live[i].sub <= live[j].sub)
  }

  /**
   * The sub committed stands at a position not quarantined, and nothing else not quarantined comes before it;
   * it becomes current, the cursor moves only for round robin, and nothing else is touched.
   */
  lemma CommitRanks(s: State, provider: Provider, live: seq<SubStatus>, settings: Settings,
                    scores: seq<Option<Usage>>, now: Timestamp)
    ensures var (after, result) := Commit(s, provider, live, settings, scores, now);
            var slot := provider.Index();
            result.Ok? ==>
              && (exists i :: 0 <= i < |live| && live[i].sub == result.value.sub && live[i].sub !in after.exhausted
                    && forall j :: 0 <= j < |live| && live[j].sub !in after.exhausted ==>
                         NoneBefore(settings.strategy, live, scores, s.cursors[slot], i, j))
              && result.value.reason == ByStrategy(settings.strategy)
              && result.value.candidates == |Filter(IsLive(after.exhausted), live)|
              && after.current[slot] == Some(result.value.sub)
              && after.cursors[slot]
                 == (if settings.strategy.RoundRobin? then Some(result.value.sub) else s.cursors[slot])
              && after.cursors[1 - slot] == s.cursors[1 - slot]
              && after.settings == s.settings && after.pinned == s.pinned
  {
    hide Score, PickMin, PickRoundRobin, CandidatesOf, NoneBefore, FigureAt, Filter, NextReset, Renewed;
    var kind := settings.strategy;
    var slot := provider.Index();
    var scored := if kind.NeedsUsage() then Score(s, live, scores, now) else s;
    ScoreEffect(s, live, scores, now);
    var candidates := CandidatesOf(scored.exhausted, live, scores);
    CandidatesAreSeen(scored.exhausted, live, scores);
    if candidates != [] {
      var k := Pick(kind, candidates, scored.cursors[slot]).0;
      assert candidates[k] in candidates;
      var i :| 0 <= i < |live| && live[i].sub !in scored.exhausted && candidates[k] == Seen(live, scores, i);
      forall j | 0 <= j < |live| && live[j].sub !in scored.exhausted
        ensures NoneBefore(kind, live, scores, s.cursors[slot], i, j)
      {
        assert Seen(live, scores, j) in candidates;
        var m :| 0 <= m < |candidates| && candidates[m] == Seen(live, scores, j);
        PickedBefore(kind, candidates, scored.cursors[slot], m, live, scores, i, j);
      }
    }
  }

  /** New settings move nobody; a change to round robin makes it begin with the least sub, else it goes on. */
  lemma NewStrategyStartsOver(s: State, settings: Settings, provider: Provider, live: seq<SubStatus>,
                              scores: seq<Option<Usage>>, now: Timestamp)
    requires settings.strategy.RoundRobin?
    ensures var applied := SettingsApplied(s, settings);
            var result := Commit(applied, provider, live, settings, scores, now).1;
            && applied.settings == settings && applied.current == s.current
            && applied.pinned == s.pinned && applied.exhausted == s.exhausted
            && (s.settings.strategy.RoundRobin? ==> applied.cursors == s.cursors)
            && (!s.settings.strategy.RoundRobin? && result.Ok? ==>
                  forall j :: 0 <= j < |live| && live[j].sub !in s.exhausted ==> result.value.sub <= live[j].sub)
  {
    hide Commit;
    CommitRanks(SettingsApplied(s, settings), provider, live, settings, scores, now);
    RoundRobinScoresNothing(SettingsApplied(s, settings), provider, live, settings, scores, now);
  }

  lemma RoundRobinScoresNothing(s: State, provider: Provider, live: seq<SubStatus>, settings: Settings,
                                scores: seq<Option<Usage>>, now: Timestamp)
    requires settings.strategy.RoundRobin?
    ensures Commit(s, provider, live, settings, scores, now).0.exhausted == s.exhausted
  {
    hide CandidatesOf, Pick, NextReset;
  }

  lemma PickedBefore(kind: StrategyKind, candidates: seq<Candidate>, last: Option<SubId>, m: nat,
                     live: seq<SubStatus>, scores: seq<Option<Usage>>, i: nat, j: nat)
    requires m < |candidates| && i < |live| && j < |live|
    requires candidates[Pick(kind, candidates, last).0] == Seen(live, scores, i)
    requires candidates[m] == Seen(live, scores, j)
    ensures NoneBefore(kind, live, scores, last, i, j)
  {
    hide PickMin, PickRoundRobin, FigureAt;
    if kind.RoundRobin? {
      RoundRobinNext(candidates, last, m);
    } else {
      RankingsMean(candidates, last, m);
    }
  }

  lemma CandidatesStep(exhausted: map<SubId, Quarantine>, live: seq<SubStatus>, scores: seq<Option<Usage>>)
    requires live != []
    ensures var rest := CandidatesOf(exhausted, live[1..], Rest(scores));
            CandidatesOf(exhausted, live, scores)
            == if live[0].sub in exhausted then rest else [CandidateOf(live[0], scores)] + rest
  {
  }

  lemma TailHolds(live: seq<SubStatus>)
    requires live != []
    ensures forall sub :: Holds(live, sub) <==> live[0].sub == sub || Holds(live[1..], sub)
  {
    var rest := live[1..];
    forall sub
      ensures Holds(live, sub) <==> live[0].sub == sub || Holds(rest, sub)
    {
      if Holds(live, sub) && live[0].sub != sub {
        var i :| 0 <= i < |live| && live[i].sub == sub;
        assert rest[i - 1].sub == sub;
      }
      if Holds(rest, sub) {
        var i :| 0 <= i < |rest| && rest[i].sub == sub;
        assert live[i + 1].sub == sub;
      }
    }
  }

  lemma TailOffers(c: Candidate, rest: seq<Candidate>)
    ensures forall sub :: Offers([c] + rest, sub) <==> c.sub == sub || Offers(rest, sub)
  {
    var all := [c] + rest;
    forall sub
      ensures Offers(all, sub) <==> c.sub == sub || Offers(rest, sub)
    {
      if Offers(all, sub) && c.sub != sub {
        var i :| 0 <= i < |all| && all[i].sub == sub;
        assert rest[i - 1].sub == sub;
      }
      if c.sub == sub {
        assert all[0].sub == sub;
      }
      if Offers(rest, sub) {
        var i :| 0 <= i < |rest| && rest[i].sub == sub;
        assert all[i + 1].sub == sub;
      }
    }
  }

  /** The candidates are the subs listed that are not quarantined. */
  lemma {:induction false} CandidatesAreLive(exhausted: map<SubId, Quarantine>, live: seq<SubStatus>,
                                             scores: seq<Option<Usage>>)
    ensures forall sub :: Offers(CandidatesOf(exhausted, live, scores), sub) <==> Holds(live, sub) && sub !in exhausted
    decreases |live|
  {
    hide CandidatesOf, Holds, Offers, CandidateOf;
    if live == [] {
      NoCandidatesOf(exhausted, scores);
    } else {
      var rest := CandidatesOf(exhausted, live[1..], Rest(scores));
      CandidatesAreLive(exhausted, live[1..], Rest(scores));
      CandidatesStep(exhausted, live, scores);
      TailHolds(live);
      TailOffers(CandidateOf(live[0], scores), rest);
      assert CandidateOf(live[0], scores).sub == live[0].sub by { CandidateIs(live[0], scores); }
    }
  }

  lemma CandidateIs(status: SubStatus, scores: seq<Option<Usage>>)
    ensures CandidateOf(status, scores).sub == status.sub
  {
  }

  lemma NoCandidatesOf(exhausted: map<SubId, Quarantine>, scores: seq<Option<Usage>>)
    ensures CandidatesOf(exhausted, [], scores) == []
    ensures forall sub :: !Offers([], sub) && !Holds([], sub)
  {
  }

  lemma CommitSound(s: State, provider: Provider, live: seq<SubStatus>, settings: Settings,
                    scores: seq<Option<Usage>>, now: Timestamp)
    ensures var (after, result) := Commit(s, provider, live, settings, scores, now);
            && (result.Ok? ==>
                  && Holds(live, result.value.sub)
                  && result.value.sub !in after.exhausted
                  && after.current[provider.Index()] == Some(result.value.sub)
                  && 0 < result.value.candidates <= |live|)
            && (result.Err? ==>
                  && result.error.AllExhausted?
                  && forall i :: 0 <= i < |live| ==> live[i].sub in after.exhausted)
  {
    hide Score, Pick;
    var scored := if settings.strategy.NeedsUsage() then Score(s, live, scores, now) else s;
    var candidates := CandidatesOf(scored.exhausted, live, scores);
    CandidatesAreLive(scored.exhausted, live, scores);
    if candidates == [] {
      forall i | 0 <= i < |live|
        ensures live[i].sub in scored.exhausted
      {
        assert Holds(live, live[i].sub) && !Offers([], live[i].sub);
      }
    } else {
      var (index, _) := Pick(settings.strategy, candidates, scored.cursors[provider.Index()]);
      assert Offers(candidates, candidates[index].sub);
    }
  }

  // ---- Recovery ----

  /** The provider's all-clear, or every figure ten points below the one the sub was quarantined at. */
  predicate AllClearOrFallen(q: Quarantine, seen: Usage) {
    seen.limitReached == Some(false) || (q.atPct.Some? && AllWithin(seen, q.atPct.value - 10.0))
  }

  lemma RecoveredExactly(q: Quarantine, seen: Usage)
    ensures Recovered(q, seen) <==> AllClearOrFallen(q, seen)
  {
    hide EffectivePct;
    if q.atPct.Some? {
      WorseOfBoth(seen, q.atPct.value - 10.0);
    }
  }

  /**
   * A sub quarantined on these figures and looked at again before its end is released exactly by the provider's
   * all-clear, or once every figure has fallen ten points below the worse of the two it was quarantined on; without
   * figures then, only by the all-clear. Only its own quarantine goes.
   */
  lemma LiftedAfter(s: State, sub: SubId, was: Option<Usage>, at: Timestamp, seen: Usage, now: Timestamp)
    requires ExhaustUntil(at, was) > now
    ensures var (after, end) := Lift(Exhaust(s, sub, was, at), sub, seen, now);
            && (end.Some? <==>
                  || seen.limitReached == Some(false)
                  || (was.Some? && AllWithin(seen, PctOf(was.value.session) - 10.0))
                  || (was.Some? && AllWithin(seen, PctOf(was.value.weekly) - 10.0)))
            && (end.Some? ==> end.value == ExhaustUntil(at, was))
            && (sub in after.exhausted <==> end.None?)
            && forall other :: other != sub ==> (other in after.exhausted <==> Held(s, other, now))
  {
    hide ExhaustUntil;
    RecoveredExactly(Exhaust(s, sub, was, at).exhausted[sub], seen);
  }

  // ---- The soonest reset ----

  ghost predicate Soonest(statuses: seq<SubStatus>, exhausted: map<SubId, Quarantine>, at: Timestamp) {
    && (exists i :: 0 <= i < |statuses| && statuses[i].sub in exhausted && exhausted[statuses[i].sub].until == at)
    && forall i :: 0 <= i < |statuses| && statuses[i].sub in exhausted ==> at <= exhausted[statuses[i].sub].until
  }

  lemma {:induction false} NextResetIsSoonest(statuses: seq<SubStatus>, exhausted: map<SubId, Quarantine>)
    ensures match NextReset(statuses, exhausted)
            case Some(at) => Soonest(statuses, exhausted, at)
            case None => forall i :: 0 <= i < |statuses| ==> statuses[i].sub !in exhausted
  {
    if statuses != [] {
      var rest := statuses[1..];
      NextResetIsSoonest(rest, exhausted);
      assert forall i :: 1 <= i < |statuses| ==> statuses[i] == rest[i - 1];
      match NextReset(rest, exhausted) {
        case Some(at) =>
          var i :| 0 <= i < |rest| && rest[i].sub in exhausted && exhausted[rest[i].sub].until == at;
          assert statuses[i + 1].sub in exhausted;
        case None =>
      }
    }
  }

  /** A first section that finds every sub quarantined reports the soonest end, which is still to come. */
  lemma BeginReportsSoonest(s: State, provider: Provider, subs: seq<SubStatus>, hints: Hints, pool: Option<PoolGate>,
                            now: Timestamp)
    ensures var (after, begun) := Begin(s, provider, subs, hints, pool, now);
            begun.Refused? && begun.error.AllExhausted? ==>
              && begun.error.nextReset.Some?
              && Soonest(Admissible(provider, subs, pool).value, after.exhausted, begun.error.nextReset.value)
              && begun.error.nextReset.value > now
  {
    hide Soonest, NextReset, Admissible, Sweep;
    var swept := Sweep(s, now);
    AdmissibleErrors(provider, subs, pool);
    SweepLeavesFuture(s, now);
    if Admissible(provider, subs, pool).Ok? {
      var usable := Admissible(provider, subs, pool).value;
      if Filter(IsLive(swept.exhausted), usable) == [] {
        AllHeldSoonest(usable, swept.exhausted, now);
      }
    }
  }

  lemma AdmissibleErrors(provider: Provider, subs: seq<SubStatus>, pool: Option<PoolGate>)
    ensures match Admissible(provider, subs, pool)
            case Ok(usable) => usable != []
            case Err(error) => !error.AllExhausted?
  {
  }

  lemma SweepLeavesFuture(s: State, now: Timestamp)
    ensures forall sub :: sub in Sweep(s, now).exhausted ==> Sweep(s, now).exhausted[sub].until > now
  {
  }

  lemma AllHeldSoonest(usable: seq<SubStatus>, exhausted: map<SubId, Quarantine>, now: Timestamp)
    requires usable != [] && forall sub :: sub in exhausted ==> exhausted[sub].until > now
    requires Filter(IsLive(exhausted), usable) == []
    ensures NextReset(usable, exhausted).Some?
    ensures Soonest(usable, exhausted, NextReset(usable, exhausted).value)
    ensures NextReset(usable, exhausted).value > now
  {
    hide NextReset;
    NextResetIsSoonest(usable, exhausted);
    assert usable[0] in usable && usable[0] !in Filter(IsLive(exhausted), usable);
  }

  /**
   * The second section reports the soonest end too. It does not sweep, so that end lies in the future
   * exactly when none of these subs is held by a quarantine already over that the figures do not renew.
   */
  lemma CommitReportsSoonest(s: State, provider: Provider, live: seq<SubStatus>, settings: Settings,
                             scores: seq<Option<Usage>>, now: Timestamp)
    requires live != []
    ensures var (after, result) := Commit(s, provider, live, settings, scores, now);
            result.Err? ==>
              && result.error.nextReset.Some?
              && Soonest(live, after.exhausted, result.error.nextReset.value)
              && (result.error.nextReset.value > now <==>
                    forall i :: 0 <= i < |live| && live[i].sub in s.exhausted ==>
                      s.exhausted[live[i].sub].until <= now ==>
                        settings.strategy.NeedsUsage() && Renewed(live, scores, live[i].sub))
  {
    hide Pick, Renewed;
    CommitSound(s, provider, live, settings, scores, now);
    var scored := if settings.strategy.NeedsUsage() then Score(s, live, scores, now) else s;
    NextResetIsSoonest(live, scored.exhausted);
    if settings.strategy.NeedsUsage() {
      ScoreEffect(s, live, scores, now);
    }
  }

  /** A figure fetched for this sub says it is used up: the provider's word, or a full window. */
  ghost predicate SaidUsedUp(live: seq<SubStatus>, scores: seq<Option<Usage>>, sub: SubId) {
    exists i :: 0 <= i < |live| && i < |scores| && live[i].sub == sub && scores[i].Some? && UsedUp(scores[i].value)
  }

  lemma {:induction false} RenewedIfSaid(live: seq<SubStatus>, scores: seq<Option<Usage>>, sub: SubId)
    ensures Renewed(live, scores, sub) <==> SaidUsedUp(live, scores, sub)
    decreases |live|
  {
    hide IsExhausted, UsedUp;
    if live != [] {
      RenewedIfSaid(live[1..], Rest(scores), sub);
      if scores != [] && scores[0].Some? {
        UsedUpByEither(scores[0].value);
      }
      if i :| 0 <= i < |live[1..]| && i < |Rest(scores)| && live[1..][i].sub == sub && Rest(scores)[i].Some?
              && UsedUp(Rest(scores)[i].value) {
        assert live[i + 1].sub == sub && scores[i + 1].Some? && UsedUp(scores[i + 1].value);
      }
      if i :| 0 <= i < |live| && i < |scores| && live[i].sub == sub && scores[i].Some? && UsedUp(scores[i].value) {
        if i > 0 {
          assert live[1..][i - 1].sub == sub && Rest(scores)[i - 1].Some? && UsedUp(Rest(scores)[i - 1].value);
        }
      }
    }
  }

  /** Some figure fetched for this sub says it is used up. */
  predicate Renewed(live: seq<SubStatus>, scores: seq<Option<Usage>>, sub: SubId)
    decreases |live|
  {
    live != [] && ((live[0].sub == sub && ReportedExhausted(scores)) || Renewed(live[1..], Rest(scores), sub))
  }

  /** Scoring touches exactly the subs reported used up, and their quarantines end later than `now`. */
  lemma {:induction false} ScoreEffect(s: State, live: seq<SubStatus>, scores: seq<Option<Usage>>, now: Timestamp)
    ensures var after := Score(s, live, scores, now);
            && after.settings == s.settings && after.pinned == s.pinned && after.cursors == s.cursors
            && (forall sub :: sub in after.exhausted <==> sub in s.exhausted || Renewed(live, scores, sub))
            && (forall sub :: Renewed(live, scores, sub) ==> after.exhausted[sub].until > now)
            && (forall sub :: sub in s.exhausted && !Renewed(live, scores, sub) ==>
                 after.exhausted[sub] == s.exhausted[sub])
            && (forall i :: 0 <= i < 2 ==>
                  after.current[i]
                  == if s.current[i].Some? && Renewed(live, scores, s.current[i].value) then None else s.current[i])
    decreases |live|
  {
    if live != [] {
      var next := if ReportedExhausted(scores) then Exhaust(s, live[0].sub, scores[0], now) else s;
      ScoreEffect(next, live[1..], Rest(scores), now);
      if ReportedExhausted(scores) {
        QuarantineEnd(now, scores[0]);
      }
    }
  }
}
