/** Which sub a select returns when nothing needs ranking: the order in which its first section is decided. */
module SelectOrder {
  import opened Prelude
  import opened Balance
  import opened Strategy
  import opened Router
  import opened RouterRuns
  import opened RouterWorld

  /** The first section settled on this sub, for this reason. */
  predicate Chose(begun: Begun, sub: Option<SubId>, reason: SelectReason) {
    begun.Chosen? && Some(begun.selection.sub) == sub && begun.selection.reason == reason
  }

  /** The current sub is kept to when that is asked for, and unless it is refused, when usage decides the ranking. */
  predicate KeepsToCurrent(settings: Settings) {
    || settings.sticky == Some(true)
    || (settings.sticky.None? && (settings.strategy.LowestUsage? || settings.strategy.HighestUsage?))
  }

  /** A request for `provider` may be sent to this sub now. */
  ghost predicate Usable(s: State, provider: Provider, subs: seq<SubStatus>, pool: Option<PoolGate>, now: Timestamp,
                         sub: Option<SubId>)
  {
    sub.Some? && Serves(provider, subs, pool, sub.value) && !Held(s, sub.value, now)
  }

  /** Filtering the list step by step, down to the subs not quarantined, leaves exactly the usable ones. */
  lemma HeldIffUsable(s: State, provider: Provider, subs: seq<SubStatus>, pool: Option<PoolGate>, now: Timestamp,
                      sub: SubId)
    requires Admissible(provider, subs, pool).Ok?
    ensures var live := Filter(IsLive(Sweep(s, now).exhausted), Admissible(provider, subs, pool).value);
            Holds(live, sub) <==> Usable(s, provider, subs, pool, now, Some(sub))
  {
    hide Filter, Admissible;
    var ex := Sweep(s, now).exhausted;
    var live := Filter(IsLive(ex), Admissible(provider, subs, pool).value);
    HeldAfterSweep(s, now);
    LiveServes(ex, provider, subs, pool);
    if Usable(s, provider, subs, pool, now, Some(sub)) {
      var status :| status in subs && status.sub == sub && Fit(provider, pool, status);
      AdmissibleServes(provider, subs, pool);
      assert status in live;
      var i :| 0 <= i < |live| && live[i] == status;
    }
  }

  lemma UsableIsAdmissible(s: State, provider: Provider, subs: seq<SubStatus>, pool: Option<PoolGate>, now: Timestamp,
                           sub: SubId)
    requires Usable(s, provider, subs, pool, now, Some(sub))
    ensures Admissible(provider, subs, pool).Ok?
  {
    hide Filter;
    var status :| status in subs && status.sub == sub && Fit(provider, pool, status);
    NoneAdmissible(provider, subs, pool);
  }

  /**
   * The pinned sub is returned whenever it is usable; failing that the current one while switching is off, then
   * the conversation's, then the key's, then the current one if selection is sticky; ranking is only for when
   * none of these is usable, and a refusal for when no sub is.
   */
  lemma Precedence(s: State, provider: Provider, subs: seq<SubStatus>, hints: Hints, pool: Option<PoolGate>,
                   now: Timestamp)
    requires provider in s.settings.proxied
    ensures var begun := Begin(s, provider, subs, hints, pool, now).1;
            var current := s.current[provider.Index()];
            if Usable(s, provider, subs, pool, now, s.pinned) then Chose(begun, s.pinned, Pinned)
            else if !s.settings.autoSwitch && Usable(s, provider, subs, pool, now, current) then
              Chose(begun, current, Frozen)
            else if Usable(s, provider, subs, pool, now, hints.chain) then Chose(begun, hints.chain, Affinity)
            else if Usable(s, provider, subs, pool, now, hints.key) then Chose(begun, hints.key, Placement)
            else if KeepsToCurrent(s.settings) && Usable(s, provider, subs, pool, now, current) then
              Chose(begun, current, Sticky)
            else if exists sub :: Usable(s, provider, subs, pool, now, Some(sub)) then begun.Proceed?
            else begun.Refused?
  {
    hide Filter, Admissible, NextReset, Usable, Begin;
    var ex := Sweep(s, now).exhausted;
    if Admissible(provider, subs, pool).Ok? {
      var live := Filter(IsLive(ex), Admissible(provider, subs, pool).value);
      UsableIsSome(s, provider, subs, pool, now);
      forall sub: Option<SubId>
        ensures HeldBy(live, sub) <==> Usable(s, provider, subs, pool, now, sub)
      {
        if sub.Some? {
          HeldIffUsable(s, provider, subs, pool, now, sub.value);
        }
      }
      BeginOrder(s, provider, subs, hints, pool, now);
      assert live != [] ==> HeldBy(live, Some(live[0].sub));
    } else {
      forall sub: Option<SubId>
        ensures !Usable(s, provider, subs, pool, now, sub)
      {
        UsableIsSome(s, provider, subs, pool, now);
        if Usable(s, provider, subs, pool, now, sub) {
          UsableIsAdmissible(s, provider, subs, pool, now, sub.value);
        }
      }
      RefusedInadmissible(s, provider, subs, hints, pool, now);
    }
  }

  lemma UsableIsSome(s: State, provider: Provider, subs: seq<SubStatus>, pool: Option<PoolGate>, now: Timestamp)
    ensures !Usable(s, provider, subs, pool, now, None)
  {
  }

  lemma RefusedInadmissible(s: State, provider: Provider, subs: seq<SubStatus>, hints: Hints, pool: Option<PoolGate>,
                            now: Timestamp)
    requires Admissible(provider, subs, pool).Err?
    ensures Begin(s, provider, subs, hints, pool, now).1.Refused?
  {
    hide Admissible;
  }

  lemma BeginOrder(s: State, provider: Provider, subs: seq<SubStatus>, hints: Hints, pool: Option<PoolGate>,
                   now: Timestamp)
    requires provider in s.settings.proxied && Admissible(provider, subs, pool).Ok?
    ensures var live := Filter(IsLive(Sweep(s, now).exhausted), Admissible(provider, subs, pool).value);
            var begun := Begin(s, provider, subs, hints, pool, now).1;
            var current := s.current[provider.Index()];
            if live == [] then begun.Refused?
            else if HeldBy(live, s.pinned) then Chose(begun, s.pinned, Pinned)
            else if !s.settings.autoSwitch && HeldBy(live, current) then Chose(begun, current, Frozen)
            else if HeldBy(live, hints.chain) then Chose(begun, hints.chain, Affinity)
            else if HeldBy(live, hints.key) then Chose(begun, hints.key, Placement)
            else if KeepsToCurrent(s.settings) && HeldBy(live, current) then Chose(begun, current, Sticky)
            else begun.Proceed?
  {
    hide Filter, Admissible, NextReset, Holds;
  }

  /** Once a sub is pinned every select that may use it returns it; lifting the pin leaves everything else. */
  lemma PinIsHonoured(w: World, tick: nat, pin: Option<SubId>, provider: Provider, subs: seq<SubStatus>, hints: Hints,
                      pool: Option<PoolGate>, now: Timestamp)
    requires provider in w.router.settings.proxied
    ensures var next := Apply(w, Step(tick, PinSet(pin)));
            && next.router == w.router.(pinned := pin) && next.pending == w.pending
            && (Usable(next.router, provider, subs, pool, now, pin) ==>
                  Chose(Begin(next.router, provider, subs, hints, pool, now).1, pin, Pinned))
  {
    hide Begin, Usable;
    Precedence(Apply(w, Step(tick, PinSet(pin))).router, provider, subs, hints, pool, now);
  }

  /** Once its current sub was cleared, a provider's next select keeps to none; the other provider's stays. */
  lemma ClearedIsForgotten(w: World, tick: nat, provider: Provider, subs: seq<SubStatus>, hints: Hints,
                           pool: Option<PoolGate>, now: Timestamp)
    requires provider in w.router.settings.proxied
    ensures var next := Apply(w, Step(tick, CurrentCleared(provider)));
            var begun := Begin(next.router, provider, subs, hints, pool, now).1;
            && (begun.Chosen? ==> !begun.selection.reason.Frozen? && !begun.selection.reason.Sticky?)
            && (forall p: Provider :: p != provider ==> next.router.current[p.Index()] == w.router.current[p.Index()])
            && next.router.exhausted == w.router.exhausted && next.router.pinned == w.router.pinned
  {
    hide Begin, Usable;
    var next := Apply(w, Step(tick, CurrentCleared(provider)));
    Precedence(next.router, provider, subs, hints, pool, now);
    UsableIsSome(next.router, provider, subs, pool, now);
  }
}
