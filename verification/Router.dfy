/**
 * The router of `crates/libsubby/src/balance/mod.rs:431-861`: what each section under its lock does to
 * the state, and the class whose methods are those sections.
 */
module Router {
  import opened Prelude
  import opened Balance
  import opened Strategy

  datatype Settings = Settings(strategy: StrategyKind, sticky: Option<bool>, autoSwitch: bool, proxied: set<Provider>) {
    predicate IsSticky() { if sticky.Some? then sticky.value else strategy.DefaultSticky() }
  }

  datatype Quarantine = Quarantine(until: Timestamp, atPct: Option<real>)

  /** One entry per provider, by `Provider.Index`. */
  type Slots = s: seq<Option<SubId>> | |s| == 2 witness [None, None]

  datatype State = State(settings: Settings, pinned: Option<SubId>, current: Slots, cursors: Slots,
                         exhausted: map<SubId, Quarantine>)

  function Initial(settings: Settings): State { State(settings, None, [None, None], [None, None], map[]) }

  // ---- Sections that do not select ----

  function Sweep(s: State, now: Timestamp): State {
    s.(exhausted := map sub | sub in s.exhausted && s.exhausted[sub].until > now :: s.exhausted[sub])
  }

  function Without(slots: Slots, sub: SubId): Slots {
    [if slots[0] == Some(sub) then None else slots[0], if slots[1] == Some(sub) then None else slots[1]]
  }

  function Exhaust(s: State, sub: SubId, usage: Option<Usage>, now: Timestamp): State {
    var pct := if usage.Some? then Some(EffectivePct(usage.value)) else None;
    s.(exhausted := s.exhausted[sub := Quarantine(ExhaustUntil(now, usage), pct)], current := Without(s.current, sub))
  }

  function Clear(s: State, sub: SubId): State { s.(exhausted := s.exhausted - {sub}) }

  predicate Recovered(q: Quarantine, usage: Usage) {
    usage.limitReached == Some(false) || (q.atPct.Some? && EffectivePct(usage) <= q.atPct.value - RESET_DROP_PCT)
  }

  function Lift(s: State, sub: SubId, usage: Usage, now: Timestamp): (State, Option<Timestamp>) {
    var swept := Sweep(s, now);
    if sub in swept.exhausted && Recovered(swept.exhausted[sub], usage)
    then (Clear(swept, sub), Some(swept.exhausted[sub].until))
    else (swept, None)
  }

  function SettingsApplied(s: State, settings: Settings): State {
    if s.settings.strategy != settings.strategy then s.(settings := settings, cursors := [None, None])
    else s.(settings := settings)
  }

  function OnFailure(s: State, sub: SubId, failure: FailureClass, usage: Option<Usage>,
                     now: Timestamp): (State, Disposition)
  {
    var after := if failure.Quarantines() then Exhaust(s, sub, usage, now) else s;
    (after, if failure.Disposition().Rotate? && !s.settings.autoSwitch then PassThrough else failure.Disposition())
  }

  // ---- Selecting ----

  function IsUsable(provider: Provider): SubStatus -> bool {
    (status: SubStatus) => status.provider == provider && status.enabled && !status.needsLogin
  }

  function IsMember(gate: PoolGate): SubStatus -> bool { (status: SubStatus) => gate.Contains(status.sub) }

  function IsAdmitted(gate: PoolGate): SubStatus -> bool { (status: SubStatus) => gate.Admits(status) }

  function IsLive(exhausted: map<SubId, Quarantine>): SubStatus -> bool {
    (status: SubStatus) => status.sub !in exhausted
  }

  function SubsOf(statuses: seq<SubStatus>): (r: seq<SubId>)
    ensures |r| == |statuses|
    ensures forall i :: 0 <= i < |r| ==> r[i] == statuses[i].sub
  {
    if statuses == [] then [] else [statuses[0].sub] + SubsOf(statuses[1..])
  }

  predicate Holds(statuses: seq<SubStatus>, sub: SubId) {
    exists i :: 0 <= i < |statuses| && statuses[i].sub == sub
  }

  function Insert(sub: SubId, sorted: seq<SubId>): seq<SubId> {
    if sorted == [] || sub <= sorted[0] then [sub] + sorted else [sorted[0]] + Insert(sub, sorted[1..])
  }

  function Sort(subs: seq<SubId>): seq<SubId> {
    if subs == [] then [] else Insert(subs[0], Sort(subs[1..]))
  }

  /** The subs a request may use, or why there are none. */
  function Admissible(provider: Provider, subs: seq<SubStatus>,
                      pool: Option<PoolGate>): Result<seq<SubStatus>, SelectError>
  {
    var usable := Filter(IsUsable(provider), subs);
    if usable == [] then Err(NoCandidates(provider))
    else
      match pool
      case None => Ok(usable)
      case Some(gate) =>
        var members := Filter(IsMember(gate), usable);
        var admitted := Filter(IsAdmitted(gate), members);
        if members == [] then Err(PoolEmpty(gate.name, false))
        else if admitted == [] then Err(PoolEmpty(gate.name, gate.HasCeiling()))
        else Ok(admitted)
  }

  function Earlier(a: Option<Timestamp>, b: Option<Timestamp>): Option<Timestamp> {
    if a.None? || (b.Some? && b.value < a.value) then b else a
  }

  /** The soonest end among the quarantines of these subs. */
  function NextReset(statuses: seq<SubStatus>, exhausted: map<SubId, Quarantine>): Option<Timestamp> {
    if statuses == [] then None
    else
      Earlier(if statuses[0].sub in exhausted then Some(exhausted[statuses[0].sub].until) else None,
              NextReset(statuses[1..], exhausted))
  }

  datatype Begun =
    | Refused(error: SelectError)
    | Chosen(selection: Selection)
    | Proceed(live: seq<SubStatus>, settings: Settings)

  predicate HeldBy(live: seq<SubStatus>, sub: Option<SubId>) { sub.Some? && Holds(live, sub.value) }

  /** The first section of a select: everything decided without usage figures. */
  function Begin(s: State, provider: Provider, subs: seq<SubStatus>, hints: Hints, pool: Option<PoolGate>,
                 now: Timestamp): (State, Begun)
  {
    var swept := Sweep(s, now);
    var settings := swept.settings;
    var slot := provider.Index();
    if provider !in settings.proxied then (swept, Refused(NotProxied(provider)))
    else
      match Admissible(provider, subs, pool)
      case Err(error) => (swept, Refused(error))
      case Ok(usable) =>
        var live := Filter(IsLive(swept.exhausted), usable);
        var current := swept.current[slot];
        if live == [] then (swept, Refused(AllExhausted(provider, NextReset(usable, swept.exhausted))))
        else if HeldBy(live, swept.pinned) then
          (swept.(current := swept.current[slot := swept.pinned]),
           Chosen(Selection(swept.pinned.value, Pinned, |live|)))
        else if !settings.autoSwitch && HeldBy(live, current) then
          (swept, Chosen(Selection(current.value, Frozen, |live|)))
        else if HeldBy(live, hints.chain) then
          (swept.(current := swept.current[slot := hints.chain]),
           Chosen(Selection(hints.chain.value, Affinity, |live|)))
        else if HeldBy(live, hints.key) then
          (swept.(current := swept.current[slot := hints.key]), Chosen(Selection(hints.key.value, Placement, |live|)))
        else if settings.IsSticky() && HeldBy(live, current) then
          (swept, Chosen(Selection(current.value, Sticky, |live|)))
        else (swept, Proceed(live, settings))
  }

  function Rest<T>(s: seq<T>): seq<T> { if s == [] then [] else s[1..] }

  predicate ReportedExhausted(scores: seq<Option<Usage>>) {
    scores != [] && scores[0].Some? && IsExhausted(scores[0].value)
  }

  /** Quarantine every sub whose fetched usage says it is used up; a failed fetch never does. */
  function Score(s: State, live: seq<SubStatus>, scores: seq<Option<Usage>>, now: Timestamp): State
    decreases |live|
  {
    if live == [] then s
    else
      var next := if ReportedExhausted(scores) then Exhaust(s, live[0].sub, scores[0], now) else s;
      Score(next, live[1..], Rest(scores), now)
  }

  function CandidateOf(status: SubStatus, scores: seq<Option<Usage>>): Candidate {
    var pct := if scores != [] && scores[0].Some? then Some(EffectivePct(scores[0].value)) else None;
    Candidate(status.sub, pct, status.inFlight, status.total)
  }

  function CandidatesOf(exhausted: map<SubId, Quarantine>, live: seq<SubStatus>,
                        scores: seq<Option<Usage>>): (r: seq<Candidate>)
    ensures |r| <= |live|
    decreases |live|
  {
    if live == [] then []
    else
      var rest := CandidatesOf(exhausted, live[1..], Rest(scores));
      if live[0].sub in exhausted then rest else [CandidateOf(live[0], scores)] + rest
  }

  /** The second section of a select, after the usage round. It does not sweep. */
  function Commit(s: State, provider: Provider, live: seq<SubStatus>, settings: Settings, scores: seq<Option<Usage>>,
                  now: Timestamp): (State, Result<Selection, SelectError>)
  {
    var kind := settings.strategy;
    var slot := provider.Index();
    var scored := if kind.NeedsUsage() then Score(s, live, scores, now) else s;
    var candidates := CandidatesOf(scored.exhausted, live, scores);
    if candidates == [] then (scored, Err(AllExhausted(provider, NextReset(live, scored.exhausted))))
    else
      var (index, cursor) := Pick(kind, candidates, scored.cursors[slot]);
      var sub := candidates[index].sub;
      (scored.(current := scored.current[slot := Some(sub)], cursors := scored.cursors[slot := cursor]),
       Ok(Selection(sub, ByStrategy(kind), |candidates|)))
  }

  function Eligible(s: State, provider: Provider, subs: seq<SubStatus>, pool: Option<PoolGate>,
                    now: Timestamp): (State, seq<SubId>)
  {
    var swept := Sweep(s, now);
    if provider !in swept.settings.proxied then (swept, [])
    else
      var live := Filter(IsLive(swept.exhausted), Filter(IsUsable(provider), subs));
      (swept, Sort(SubsOf(if pool.Some? then Filter(IsAdmitted(pool.value), live) else live)))
  }

  // ---- The class ----

  class Router {
    var settings: Settings
    var pinned: Option<SubId>
    var exhausted: map<SubId, Quarantine>
    const current: array<Option<SubId>>
    const cursors: array<Option<SubId>>

    ghost predicate Valid()
      reads this
    {
      current.Length == 2 && cursors.Length == 2 && current != cursors
    }

    ghost function View(): State
      requires Valid()
      reads this, current, cursors
    {
      State(settings, pinned, current[..], cursors[..], exhausted)
    }

    constructor (settings: Settings)
      ensures Valid() && fresh(current) && fresh(cursors)
      ensures View() == Initial(settings)
    {
      this.settings, pinned, exhausted := settings, None, map[];
      current := new Option<SubId>[2](_ => None);
      cursors := new Option<SubId>[2](_ => None);
      new;
      assert current[..] == [None, None] && cursors[..] == [None, None];
    }

    method SetSettings(next: Settings)
      requires Valid()
      modifies this, cursors
      ensures Valid() && View() == SettingsApplied(old(View()), next)
    {
      if settings.strategy != next.strategy {
        cursors[0] := None;
        cursors[1] := None;
        assert cursors[..] == [None, None];
      }
      settings := next;
    }

    method Pin(sub: Option<SubId>)
      requires Valid()
      modifies this`pinned
      ensures Valid() && View() == old(View()).(pinned := sub)
    {
      pinned := sub;
    }

    /** Forces the next request of this provider to be ranked again. */
    method ClearCurrent(provider: Provider)
      requires Valid()
      modifies current
      ensures Valid() && View() == old(View()).(current := old(View()).current[provider.Index() := None])
    {
      current[provider.Index()] := None;
      assert current[..] == old(current[..])[provider.Index() := None];
    }

    method SweepAt(now: Timestamp)
      requires Valid()
      modifies this`exhausted
      ensures Valid() && View() == Sweep(old(View()), now)
    {
      exhausted := map sub | sub in exhausted && exhausted[sub].until > now :: exhausted[sub];
    }

    /** The sub is quarantined, and no provider's slot keeps it. */
    method ExhaustAt(sub: SubId, usage: Option<Usage>, now: Timestamp) returns (until: Timestamp)
      requires Valid()
      modifies this`exhausted, current
      ensures Valid() && View() == Exhaust(old(View()), sub, usage, now)
      ensures until == View().exhausted[sub].until
    {
      until := ExhaustUntil(now, usage);
      var pct := if usage.Some? then Some(EffectivePct(usage.value)) else None;
      exhausted := exhausted[sub := Quarantine(until, pct)];
      var i := 0;
      while i < current.Length
        invariant 0 <= i <= current.Length
        invariant forall k :: 0 <= k < i ==>
                    current[k] == (if old(current[k]) == Some(sub) then None else old(current[k]))
        invariant forall k :: i <= k < current.Length ==> current[k] == old(current[k])
        modifies current
      {
        if current[i] == Some(sub) {
          current[i] := None;
        }
        i := i + 1;
      }
      assert current[..] == Without(old(current[..]), sub);
    }

    method ClearExhaustion(sub: SubId)
      requires Valid()
      modifies this`exhausted
      ensures Valid() && View() == Clear(old(View()), sub)
    {
      exhausted := exhausted - {sub};
    }

    method LiftIfRecovered(sub: SubId, usage: Usage, now: Timestamp) returns (lifted: Option<Timestamp>)
      requires Valid()
      modifies this`exhausted
      ensures Valid() && (View(), lifted) == Lift(old(View()), sub, usage, now)
    {
      SweepAt(now);
      if sub !in exhausted {
        return None;
      }
      var quarantine := exhausted[sub];
      var allClear := usage.limitReached == Some(false);
      var reset := quarantine.atPct.Some? && EffectivePct(usage) <= quarantine.atPct.value - RESET_DROP_PCT;
      if !(allClear || reset) {
        return None;
      }
      exhausted := exhausted - {sub};
      lifted := Some(quarantine.until);
    }

    method OnFailureAt(sub: SubId, failure: FailureClass, usage: Option<Usage>, now: Timestamp) returns (d: Disposition)
      requires Valid()
      modifies this`exhausted, current
      ensures Valid() && (View(), d) == OnFailure(old(View()), sub, failure, usage, now)
    {
      if failure.Quarantines() {
        var _ := ExhaustAt(sub, usage, now);
      }
      d := failure.Disposition();
      if d.Rotate? && !settings.autoSwitch {
        d := PassThrough;
      }
    }

    method EligibleIn(provider: Provider, subs: seq<SubStatus>, pool: Option<PoolGate>, now: Timestamp)
      returns (ids: seq<SubId>)
      requires Valid()
      modifies this`exhausted
      ensures Valid() && (View(), ids) == Eligible(old(View()), provider, subs, pool, now)
    {
      SweepAt(now);
      if provider !in settings.proxied {
        return [];
      }
      var live := Filter(IsLive(exhausted), Filter(IsUsable(provider), subs));
      if pool.Some? {
        live := Filter(IsAdmitted(pool.value), live);
      }
      ids := Sort(SubsOf(live));
    }

    /** The first lock section of `select_in`; `now` was read before the lock was taken. */
    method SelectBegin(provider: Provider, subs: seq<SubStatus>, hints: Hints, pool: Option<PoolGate>, now: Timestamp)
      returns (begun: Begun)
      requires Valid()
      modifies this`exhausted, current
      ensures Valid() && (View(), begun) == Begin(old(View()), provider, subs, hints, pool, now)
    {
      SweepAt(now);
      if provider !in settings.proxied {
        return Refused(NotProxied(provider));
      }
      var admissible := Admissible(provider, subs, pool);
      if admissible.Err? {
        return Refused(admissible.error);
      }
      var live := Filter(IsLive(exhausted), admissible.value);
      if live == [] {
        return Refused(AllExhausted(provider, NextReset(admissible.value, exhausted)));
      }
      var slot := provider.Index();
      if HeldBy(live, pinned) {
        current[slot] := pinned;
        assert current[..] == old(current[..])[slot := pinned];
        return Chosen(Selection(pinned.value, Pinned, |live|));
      }
      if !settings.autoSwitch && HeldBy(live, current[slot]) {
        return Chosen(Selection(current[slot].value, Frozen, |live|));
      }
      if HeldBy(live, hints.chain) {
        current[slot] := hints.chain;
        assert current[..] == old(current[..])[slot := hints.chain];
        return Chosen(Selection(hints.chain.value, Affinity, |live|));
      }
      if HeldBy(live, hints.key) {
        current[slot] := hints.key;
        assert current[..] == old(current[..])[slot := hints.key];
        return Chosen(Selection(hints.key.value, Placement, |live|));
      }
      if settings.IsSticky() && HeldBy(live, current[slot]) {
        return Chosen(Selection(current[slot].value, Sticky, |live|));
      }
      begun := Proceed(live, settings);
    }

    /** The second lock section of `select_in`, with the figures the usage round brought back. */
    method SelectCommit(provider: Provider, live: seq<SubStatus>, asked: Settings, scores: seq<Option<Usage>>,
                        now: Timestamp)
      returns (result: Result<Selection, SelectError>)
      requires Valid()
      modifies this`exhausted, current, cursors
      ensures Valid() && (View(), result) == Commit(old(View()), provider, live, asked, scores, now)
    {
      hide Exhaust, CandidatesOf, NextReset;
      var kind := asked.strategy;
      var slot := provider.Index();
      ghost var scored := if kind.NeedsUsage() then Score(View(), live, scores, now) else View();
      if kind.NeedsUsage() {
        var index := 0;
        assert live[0..] == live && Drop(scores, 0) == scores;
        while index < |live|
          invariant index <= |live| && Valid()
          invariant Score(View(), live[index..], Drop(scores, index), now) == scored
          modifies this`exhausted, current
        {
          DropStep(scores, index);
          assert live[index..][1..] == live[index + 1..];
          if index < |scores| && scores[index].Some? && IsExhausted(scores[index].value) {
            var _ := ExhaustAt(live[index].sub, scores[index], now);
          }
          index := index + 1;
        }
      }
      var candidates := CandidatesOf(exhausted, live, scores);
      if candidates == [] {
        return Err(AllExhausted(provider, NextReset(live, exhausted)));
      }
      var (index, cursor) := Pick(kind, candidates, cursors[slot]);
      ghost var mid := View();
      cursors[slot] := cursor;
      assert cursors[..] == mid.cursors[slot := cursor];
      var sub := candidates[index].sub;
      current[slot] := Some(sub);
      assert current[..] == mid.current[slot := Some(sub)];
      result := Ok(Selection(sub, ByStrategy(kind), |candidates|));
    }
  }

  /** What is left of the scores after the first `n`. */
  function Drop<T>(s: seq<T>, n: nat): seq<T> { if n <= |s| then s[n..] else [] }

  lemma DropStep<T>(s: seq<T>, n: nat)
    ensures Rest(Drop(s, n)) == Drop(s, n + 1)
    ensures Drop(s, n) == [] <==> n >= |s|
    ensures n < |s| ==> Drop(s, n)[0] == s[n]
  {
  }
}
