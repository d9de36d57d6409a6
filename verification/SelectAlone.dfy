/** A select that nothing interrupts: against `eligible_in`, and against a reordered status list. */
module SelectAlone {
  import opened Prelude
  import opened Balance
  import opened Strategy
  import opened Router
  import opened RouterRuns

  /** The usage round's answer, one figure per sub. */
  function ScoresOf(usageOf: SubId -> Option<Usage>, live: seq<SubStatus>): (r: seq<Option<Usage>>)
    ensures |r| == |live|
  {
    if live == [] then [] else [usageOf(live[0].sub)] + ScoresOf(usageOf, live[1..])
  }

  function Select(s: State, provider: Provider, subs: seq<SubStatus>, hints: Hints, pool: Option<PoolGate>,
                  usageOf: SubId -> Option<Usage>, now: Timestamp): (State, Result<Selection, SelectError>)
  {
    var (mid, begun) := Begin(s, provider, subs, hints, pool, now);
    match begun
    case Refused(error) => (mid, Err(error))
    case Chosen(selection) => (mid, Ok(selection))
    case Proceed(live, settings) =>
      var scores := if settings.strategy.NeedsUsage() then ScoresOf(usageOf, live) else [];
      Commit(mid, provider, live, settings, scores, now)
  }

  // ---- Lists as multisets ----

  lemma {:induction false} FilterCount<T(!new)>(p: T -> bool, s: seq<T>)
    ensures forall x :: multiset(Filter(p, s))[x] == if p(x) then multiset(s)[x] else 0
  {
    if s != [] {
      FilterCount(p, s[1..]);
      assert s == [s[0]] + s[1..];
    }
  }

  lemma FilterSame<T(!new)>(p: T -> bool, a: seq<T>, b: seq<T>)
    requires multiset(a) == multiset(b)
    ensures multiset(Filter(p, a)) == multiset(Filter(p, b))
  {
    FilterCount(p, a);
    FilterCount(p, b);
  }

  lemma SameMembers<T>(a: seq<T>, b: seq<T>)
    requires multiset(a) == multiset(b)
    ensures |a| == |b| && (a == [] <==> b == []) && forall x :: x in a <==> x in b
  {
    assert |multiset(a)| == |a| && |multiset(b)| == |b|;
    forall x
      ensures x in a <==> x in b
    {
      assert x in a <==> x in multiset(a);
      assert x in b <==> x in multiset(b);
    }
  }

  lemma {:induction false} SortKeeps(subs: seq<SubId>)
    ensures multiset(Sort(subs)) == multiset(subs)
    ensures forall i, j :: 0 <= i < j < |Sort(subs)| ==> Sort(subs)[i] <= Sort(subs)[j]
  {
    if subs != [] {
      SortKeeps(subs[1..]);
      InsertKeeps(subs[0], Sort(subs[1..]));
      assert subs == [subs[0]] + subs[1..];
    }
  }

  lemma InsertStep(sub: SubId, sorted: seq<SubId>)
    ensures Insert(sub, sorted)
            == if sorted == [] || sub <= sorted[0] then [sub] + sorted
               else [sorted[0]] + Insert(sub, sorted[1..])
  {
  }

  lemma {:induction false} InsertKeepsAll(sub: SubId, sorted: seq<SubId>)
    ensures multiset(Insert(sub, sorted)) == multiset(sorted) + multiset{sub}
  {
    hide Insert;
    InsertStep(sub, sorted);
    if sorted != [] && sub > sorted[0] {
      assert sorted == [sorted[0]] + sorted[1..];
      InsertKeepsAll(sub, sorted[1..]);
    }
  }

  lemma {:induction false} InsertKeepsOrder(sub: SubId, sorted: seq<SubId>)
    requires forall i, j :: 0 <= i < j < |sorted| ==> sorted[i] <= sorted[j]
    ensures var r := Insert(sub, sorted); forall i, j :: 0 <= i < j < |r| ==> r[i] <= r[j]
  {
    hide Insert;
    InsertStep(sub, sorted);
    if sorted == [] {
    } else if sub <= sorted[0] {
      LeadsSorted(sub, sorted);
    } else {
      var rest := sorted[1..];
      InsertKeepsAll(sub, rest);
      InsertKeepsOrder(sub, rest);
      LeastStays(sorted[0], sub, rest, Insert(sub, rest));
      LeadsSorted(sorted[0], Insert(sub, rest));
    }
  }

  lemma InsertKeeps(sub: SubId, sorted: seq<SubId>)
    requires forall i, j :: 0 <= i < j < |sorted| ==> sorted[i] <= sorted[j]
    ensures multiset(Insert(sub, sorted)) == multiset(sorted) + multiset{sub}
    ensures var r := Insert(sub, sorted); forall i, j :: 0 <= i < j < |r| ==> r[i] <= r[j]
  {
    hide Insert;
    InsertKeepsAll(sub, sorted);
    InsertKeepsOrder(sub, sorted);
  }

  lemma LeadsSorted(least: SubId, more: seq<SubId>)
    requires forall i, j :: 0 <= i < j < |more| ==> more[i] <= more[j]
    requires forall k :: 0 <= k < |more| ==> least <= more[k]
    ensures var r := [least] + more; forall i, j :: 0 <= i < j < |r| ==> r[i] <= r[j]
  {
  }

  lemma LeastStays(least: SubId, sub: SubId, rest: seq<SubId>, more: seq<SubId>)
    requires least <= sub && forall i :: 0 <= i < |rest| ==> least <= rest[i]
    requires multiset(more) == multiset(rest) + multiset{sub}
    ensures forall k :: 0 <= k < |more| ==> least <= more[k]
  {
    forall k | 0 <= k < |more|
      ensures least <= more[k]
    {
      assert more[k] in multiset(more);
      if more[k] != sub {
        assert more[k] in multiset(rest);
        assert more[k] in rest;
      }
    }
  }

  lemma {:induction false} SubsSame(a: seq<SubStatus>, b: seq<SubStatus>)
    requires multiset(a) == multiset(b)
    ensures multiset(SubsOf(a)) == multiset(SubsOf(b))
    decreases |a|
  {
    hide SubsOf;
    SameMembers(a, b);
    if a == [] {
      assert a == b;
    } else {
      assert a[0] in a;
      assert a[0] in b;
      var j :| 0 <= j < |b| && b[j] == a[0];
      OneOut(a, 0);
      OneOut(b, j);
      var a1 := a[..0] + a[1..];
      var b1 := b[..j] + b[j + 1..];
      assert |a1| < |a|;
      SubsSame(a1, b1);
    }
  }

  lemma OneOut(a: seq<SubStatus>, j: nat)
    requires j < |a|
    ensures var fewer := a[..j] + a[j + 1..];
            && multiset(fewer) == multiset(a) - multiset{a[j]}
            && multiset(SubsOf(a)) == multiset(SubsOf(fewer)) + multiset{a[j].sub}
  {
    assert a == a[..j] + [a[j]] + a[j + 1..];
    SubsAppend(a[..j], a[j + 1..]);
    SubsAppend(a[..j] + [a[j]], a[j + 1..]);
    SubsAppend(a[..j], [a[j]]);
    assert SubsOf([a[j]]) == [a[j].sub];
  }

  lemma SubsAppend(a: seq<SubStatus>, b: seq<SubStatus>)
    ensures SubsOf(a + b) == SubsOf(a) + SubsOf(b)
  {
  }

  // ---- Against `eligible_in` ----

  predicate Ascending(subs: seq<SubId>) { forall i, j :: 0 <= i < j < |subs| ==> subs[i] <= subs[j] }

  /** `eligible_in` lists, in ascending order, the subs that may serve the request and are not quarantined. */
  lemma EligibleMeans(s: State, provider: Provider, subs: seq<SubStatus>, pool: Option<PoolGate>, now: Timestamp)
    ensures var eligible := Eligible(s, provider, subs, pool, now).1;
            && Ascending(eligible)
            && forall sub :: sub in eligible <==>
                 provider in s.settings.proxied && Serves(provider, subs, pool, sub) && !Held(s, sub, now)
  {
    hide Held, Sweep, Sort, Serves, Filter, SubsOf;
    HeldAfterSweep(s, now);
    SweepKeepsSettings(s, now);
    if provider in s.settings.proxied {
      LeftServes(Sweep(s, now).exhausted, provider, subs, pool);
    }
  }

  lemma LeftServes(ex: map<SubId, Quarantine>, provider: Provider, subs: seq<SubStatus>, pool: Option<PoolGate>)
    ensures var live := Filter(IsLive(ex), Filter(IsUsable(provider), subs));
            var listed := Sort(SubsOf(if pool.Some? then Filter(IsAdmitted(pool.value), live) else live));
            && Ascending(listed)
            && forall sub :: sub in listed <==> Serves(provider, subs, pool, sub) && sub !in ex
  {
    hide Filter, Fit, Sort, IsUsable, IsAdmitted, SubsOf;
    var usable := Filter(IsUsable(provider), subs);
    var live := Filter(IsLive(ex), usable);
    var left := if pool.Some? then Filter(IsAdmitted(pool.value), live) else live;
    FitIsAdmitted(provider, pool);
    forall status
      ensures status in left <==> status in subs && Fit(provider, pool, status) && status.sub !in ex
    {
      assert status in left <==> status in live && (pool.Some? ==> IsAdmitted(pool.value)(status));
      assert status in live <==> status in usable && status.sub !in ex;
      assert status in usable <==> status in subs && IsUsable(provider)(status);
    }
    forall sub
      ensures Holds(left, sub) <==> Serves(provider, subs, pool, sub) && sub !in ex
    {
      if Holds(left, sub) {
        var i :| 0 <= i < |left| && left[i].sub == sub;
        assert left[i] in left;
      }
      if status :| status in subs && status.sub == sub && Fit(provider, pool, status) && sub !in ex {
        assert status in left;
      }
    }
    SortLists(left);
  }

  lemma SortLists(statuses: seq<SubStatus>)
    ensures var listed := Sort(SubsOf(statuses));
            && Ascending(listed)
            && forall sub :: sub in listed <==> Holds(statuses, sub)
  {
    hide Sort, SubsOf;
    SortKeeps(SubsOf(statuses));
    SameMembers(Sort(SubsOf(statuses)), SubsOf(statuses));
    forall sub
      ensures sub in SubsOf(statuses) <==> Holds(statuses, sub)
    {
      if i :| 0 <= i < |statuses| && statuses[i].sub == sub {
        assert SubsOf(statuses)[i] == sub;
      }
    }
  }

  lemma FitIsAdmitted(provider: Provider, pool: Option<PoolGate>)
    ensures forall status :: Fit(provider, pool, status) <==>
              IsUsable(provider)(status) && (pool.Some? ==> IsAdmitted(pool.value)(status))
  {
  }

  /** The subs a select goes on with are those `eligible_in` lists, repetitions included. */
  lemma LiveIsEligible(s: State, provider: Provider, subs: seq<SubStatus>, pool: Option<PoolGate>, now: Timestamp)
    requires provider in s.settings.proxied && Admissible(provider, subs, pool).Ok?
    ensures var live := Filter(IsLive(Sweep(s, now).exhausted), Admissible(provider, subs, pool).value);
            multiset(Eligible(s, provider, subs, pool, now).1) == multiset(SubsOf(live))
  {
    hide Filter;
    var ex := Sweep(s, now).exhausted;
    var usable := Filter(IsUsable(provider), subs);
    match pool {
      case None =>
        SortKeeps(SubsOf(Filter(IsLive(ex), usable)));
      case Some(gate) =>
        var a := Filter(IsAdmitted(gate), Filter(IsLive(ex), usable));
        var b := Filter(IsLive(ex), Filter(IsAdmitted(gate), Filter(IsMember(gate), usable)));
        FilterCount(IsLive(ex), usable);
        FilterCount(IsAdmitted(gate), Filter(IsLive(ex), usable));
        FilterCount(IsMember(gate), usable);
        FilterCount(IsAdmitted(gate), Filter(IsMember(gate), usable));
        FilterCount(IsLive(ex), Filter(IsAdmitted(gate), Filter(IsMember(gate), usable)));
        forall x
          ensures multiset(a)[x] == multiset(b)[x]
        {
        }
        assert multiset(a) == multiset(b);
        SubsSame(a, b);
        SortKeeps(SubsOf(a));
    }
  }

  lemma NoneEligible(s: State, provider: Provider, subs: seq<SubStatus>, pool: Option<PoolGate>, now: Timestamp)
    requires provider !in s.settings.proxied || Admissible(provider, subs, pool).Err?
    ensures Eligible(s, provider, subs, pool, now).1 == []
  {
    var live := Filter(IsLive(Sweep(s, now).exhausted), Filter(IsUsable(provider), subs));
    LeftOver(Sweep(s, now).exhausted, provider, subs, pool);
  }

  lemma {:induction false} LeftOver(ex: map<SubId, Quarantine>, provider: Provider, subs: seq<SubStatus>,
                                    pool: Option<PoolGate>)
    ensures var live := Filter(IsLive(ex), Filter(IsUsable(provider), subs));
            var left := if pool.Some? then Filter(IsAdmitted(pool.value), live) else live;
            left != [] ==> Admissible(provider, subs, pool).Ok?
  {
    var usable := Filter(IsUsable(provider), subs);
    var live := Filter(IsLive(ex), usable);
    var left := if pool.Some? then Filter(IsAdmitted(pool.value), live) else live;
    if left != [] {
      var x := left[0];
      assert x in left && x in usable;
      if pool.Some? {
        assert x in Filter(IsMember(pool.value), usable);
        assert x in Filter(IsAdmitted(pool.value), Filter(IsMember(pool.value), usable));
      }
    }
  }

  /**
   * Run alone with a strategy that needs no usage figures, a select succeeds exactly when `eligible_in` lists
   * a sub, picks one it lists, and reports how many it lists.
   */
  lemma SucceedsIffEligible(s: State, provider: Provider, subs: seq<SubStatus>, hints: Hints, pool: Option<PoolGate>,
                            usageOf: SubId -> Option<Usage>, now: Timestamp)
    requires !s.settings.strategy.NeedsUsage()
    ensures var eligible := Eligible(s, provider, subs, pool, now).1;
            var result := Select(s, provider, subs, hints, pool, usageOf, now).1;
            && (result.Ok? <==> eligible != [])
            && (result.Ok? ==> result.value.sub in eligible && result.value.candidates == |eligible|)
  {
    hide Filter, Admissible, Begin, Commit, Eligible;
    var eligible := Eligible(s, provider, subs, pool, now).1;
    if provider !in s.settings.proxied || Admissible(provider, subs, pool).Err? {
      NoneEligible(s, provider, subs, pool, now);
      RefusedEarly(s, provider, subs, hints, pool, now);
    } else {
      var swept := Sweep(s, now);
      var live := Filter(IsLive(swept.exhausted), Admissible(provider, subs, pool).value);
      LiveIsEligible(s, provider, subs, pool, now);
      SameMembers(eligible, SubsOf(live));
      LiveServes(swept.exhausted, provider, subs, pool);
      BeginCases(s, provider, subs, hints, pool, now);
      HeldIsListed(live);
      if Begin(s, provider, subs, hints, pool, now).1.Proceed? {
        CommitsAlone(swept, provider, live, s.settings, now);
      }
    }
  }

  lemma RefusedEarly(s: State, provider: Provider, subs: seq<SubStatus>, hints: Hints, pool: Option<PoolGate>,
                     now: Timestamp)
    requires provider !in s.settings.proxied || Admissible(provider, subs, pool).Err?
    ensures var error := if provider !in s.settings.proxied then NotProxied(provider)
                         else Admissible(provider, subs, pool).error;
            Begin(s, provider, subs, hints, pool, now) == (Sweep(s, now), Refused(error))
  {
    hide Admissible;
  }

  /** How a first section ends once the subs it may use are known. */
  lemma BeginCases(s: State, provider: Provider, subs: seq<SubStatus>, hints: Hints, pool: Option<PoolGate>,
                   now: Timestamp)
    requires provider in s.settings.proxied && Admissible(provider, subs, pool).Ok?
    ensures var swept := Sweep(s, now);
            var live := Filter(IsLive(swept.exhausted), Admissible(provider, subs, pool).value);
            var (after, begun) := Begin(s, provider, subs, hints, pool, now);
            && (begun.Refused? <==> live == [])
            && (begun.Chosen? ==> Holds(live, begun.selection.sub) && begun.selection.candidates == |live|)
            && (begun.Proceed? ==> begun == Proceed(live, s.settings) && after == swept)
  {
    hide Filter, Admissible, NextReset;
  }

  lemma CommitsAlone(s: State, provider: Provider, live: seq<SubStatus>, settings: Settings, now: Timestamp)
    requires !settings.strategy.NeedsUsage() && live != []
    requires forall sub :: Holds(live, sub) ==> sub !in s.exhausted
    ensures var result := Commit(s, provider, live, settings, [], now).1;
            result.Ok? && Holds(live, result.value.sub) && result.value.candidates == |live|
  {
    hide Pick, NextReset, CandidatesOf;
    AllCandidates(s.exhausted, live, []);
    CandidatesAreLive(s.exhausted, live, []);
    var candidates := CandidatesOf(s.exhausted, live, []);
    var (index, _) := Pick(settings.strategy, candidates, s.cursors[provider.Index()]);
    assert Offers(candidates, candidates[index].sub);
  }

  lemma HeldIsListed(live: seq<SubStatus>)
    ensures forall sub :: Holds(live, sub) <==> sub in SubsOf(live)
  {
    forall sub
      ensures Holds(live, sub) <==> sub in SubsOf(live)
    {
      if sub in SubsOf(live) {
        var i :| 0 <= i < |SubsOf(live)| && SubsOf(live)[i] == sub;
        assert live[i].sub == sub;
      }
      if Holds(live, sub) {
        var i :| 0 <= i < |live| && live[i].sub == sub;
        assert SubsOf(live)[i] == sub;
      }
    }
  }

  /** With none of them quarantined, every sub is a candidate. */
  lemma {:induction false} AllCandidates(ex: map<SubId, Quarantine>, live: seq<SubStatus>, scores: seq<Option<Usage>>)
    requires forall sub :: Holds(live, sub) ==> sub !in ex
    ensures |CandidatesOf(ex, live, scores)| == |live|
    decreases |live|
  {
    if live != [] {
      assert Holds(live, live[0].sub);
      forall sub | Holds(live[1..], sub)
        ensures Holds(live, sub)
      {
        var i :| 0 <= i < |live[1..]| && live[1..][i].sub == sub;
        assert live[i + 1].sub == sub;
      }
      AllCandidates(ex, live[1..], Rest(scores));
    }
  }

  // ---- Against a reordered status list ----

  predicate Reports(usageOf: SubId -> Option<Usage>, sub: SubId) {
    usageOf(sub).Some? && IsExhausted(usageOf(sub).value)
  }

  function ReportedSubs(live: seq<SubStatus>, usageOf: SubId -> Option<Usage>): (r: set<SubId>)
    ensures forall sub :: sub in r <==> Holds(live, sub) && Reports(usageOf, sub)
  {
    if live == [] then {}
    else
      assert forall i :: 1 <= i < |live| ==> live[i] == live[1..][i - 1];
      (if Reports(usageOf, live[0].sub) then {live[0].sub} else {}) + ReportedSubs(live[1..], usageOf)
  }

  /** Every sub of a set quarantined with its own figure. */
  function Marked(s: State, subs: set<SubId>, usageOf: SubId -> Option<Usage>, now: Timestamp): State
    requires forall sub :: sub in subs ==> usageOf(sub).Some?
  {
    s.(exhausted := map sub | sub in s.exhausted.Keys + subs ::
         if sub in subs then Quarantine(ExhaustUntil(now, usageOf(sub)), Some(EffectivePct(usageOf(sub).value)))
         else s.exhausted[sub],
       current := [if s.current[0].Some? && s.current[0].value in subs then None else s.current[0],
                   if s.current[1].Some? && s.current[1].value in subs then None else s.current[1]])
  }

  lemma MarkedTwice(s: State, a: set<SubId>, b: set<SubId>, usageOf: SubId -> Option<Usage>, now: Timestamp)
    requires forall sub :: sub in a + b ==> usageOf(sub).Some?
    ensures Marked(Marked(s, a, usageOf, now), b, usageOf, now) == Marked(s, a + b, usageOf, now)
  {
    hide ExhaustUntil, EffectivePct;
  }

  lemma {:induction false} ScoreIsMarked(s: State, live: seq<SubStatus>, usageOf: SubId -> Option<Usage>,
                                         now: Timestamp)
    ensures Score(s, live, ScoresOf(usageOf, live), now) == Marked(s, ReportedSubs(live, usageOf), usageOf, now)
    decreases |live|
  {
    hide Marked, ExhaustUntil, EffectivePct, IsExhausted;
    if live == [] {
      MarkedNone(s, usageOf, now);
    } else {
      var x := live[0].sub;
      var first := if Reports(usageOf, x) then {x} else {};
      assert Rest(ScoresOf(usageOf, live)) == ScoresOf(usageOf, live[1..]);
      MarkedTwice(s, first, ReportedSubs(live[1..], usageOf), usageOf, now);
      MarkedNone(s, usageOf, now);
      if Reports(usageOf, x) {
        MarkedOne(s, x, usageOf, now);
      }
      ScoreIsMarked(Marked(s, first, usageOf, now), live[1..], usageOf, now);
    }
  }

  lemma MarkedNone(s: State, usageOf: SubId -> Option<Usage>, now: Timestamp)
    ensures Marked(s, {}, usageOf, now) == s
  {
  }

  lemma MarkedOne(s: State, sub: SubId, usageOf: SubId -> Option<Usage>, now: Timestamp)
    requires usageOf(sub).Some?
    ensures Marked(s, {sub}, usageOf, now) == Exhaust(s, sub, usageOf(sub), now)
  {
    hide ExhaustUntil, EffectivePct;
  }

  /** The figures a commit is given are those of `usageOf`, or it is given none. */
  ghost predicate FiguresOf(scores: seq<Option<Usage>>, live: seq<SubStatus>, usageOf: SubId -> Option<Usage>) {
    scores == ScoresOf(usageOf, live) || (scores == [] && forall sub :: usageOf(sub) == None)
  }

  function CandidateFor(status: SubStatus, usage: Option<Usage>): Candidate {
    Candidate(status.sub, if usage.Some? then Some(EffectivePct(usage.value)) else None, status.inFlight, status.total)
  }

  lemma {:induction false} CandidatesAre(ex: map<SubId, Quarantine>, live: seq<SubStatus>, scores: seq<Option<Usage>>,
                                         usageOf: SubId -> Option<Usage>)
    requires FiguresOf(scores, live, usageOf)
    ensures forall c :: c in CandidatesOf(ex, live, scores) <==>
              exists status :: status in live && status.sub !in ex && c == CandidateFor(status, usageOf(status.sub))
    ensures |CandidatesOf(ex, live, scores)| == |Filter(IsLive(ex), live)|
    decreases |live|
  {
    hide EffectivePct;
    if live != [] {
      var rest := live[1..];
      assert FiguresOf(Rest(scores), rest, usageOf);
      CandidatesAre(ex, rest, Rest(scores), usageOf);
      assert forall status :: status in live <==> status == live[0] || status in rest;
      assert CandidateOf(live[0], scores) == CandidateFor(live[0], usageOf(live[0].sub));
    }
  }

  lemma NextResetSame(a: seq<SubStatus>, b: seq<SubStatus>, ex: map<SubId, Quarantine>)
    requires forall status :: status in a <==> status in b
    ensures NextReset(a, ex) == NextReset(b, ex)
  {
    NextResetIsSoonest(a, ex);
    NextResetIsSoonest(b, ex);
    forall i | 0 <= i < |a|
      ensures a[i] in b
    {
      assert a[i] in a;
    }
    forall i | 0 <= i < |b|
      ensures b[i] in a
    {
      assert b[i] in b;
    }
  }

  lemma HoldsSame(a: seq<SubStatus>, b: seq<SubStatus>)
    requires forall status :: status in a <==> status in b
    ensures forall sub :: Holds(a, sub) <==> Holds(b, sub)
  {
    HoldsIn(a, b);
    HoldsIn(b, a);
  }

  lemma HoldsIn(a: seq<SubStatus>, b: seq<SubStatus>)
    requires forall status :: status in a ==> status in b
    ensures forall sub :: Holds(a, sub) ==> Holds(b, sub)
  {
    forall sub | Holds(a, sub)
      ensures Holds(b, sub)
    {
      var i :| 0 <= i < |a| && a[i].sub == sub;
      assert a[i] in b;
    }
  }

  lemma AdmissibleSame(provider: Provider, a: seq<SubStatus>, b: seq<SubStatus>, pool: Option<PoolGate>)
    requires multiset(a) == multiset(b)
    ensures var x := Admissible(provider, a, pool);
            var y := Admissible(provider, b, pool);
            if x.Ok? then y.Ok? && multiset(x.value) == multiset(y.value) else x == y
  {
    hide Filter;
    var ua := Filter(IsUsable(provider), a);
    var ub := Filter(IsUsable(provider), b);
    FilterSame(IsUsable(provider), a, b);
    SameMembers(ua, ub);
    if pool.Some? {
      FilterSame(IsMember(pool.value), ua, ub);
      var ma := Filter(IsMember(pool.value), ua);
      var mb := Filter(IsMember(pool.value), ub);
      SameMembers(ma, mb);
      FilterSame(IsAdmitted(pool.value), ma, mb);
      SameMembers(Filter(IsAdmitted(pool.value), ma), Filter(IsAdmitted(pool.value), mb));
    }
  }

  lemma BeginSame(s: State, provider: Provider, a: seq<SubStatus>, b: seq<SubStatus>, hints: Hints,
                  pool: Option<PoolGate>, now: Timestamp)
    requires multiset(a) == multiset(b)
    ensures var (sa, x) := Begin(s, provider, a, hints, pool, now);
            var (sb, y) := Begin(s, provider, b, hints, pool, now);
            && sa == sb
            && if x.Proceed?
               then y.Proceed? && x.settings == y.settings && multiset(x.live) == multiset(y.live) && x.live != []
               else x == y
  {
    hide Filter, NextReset, Admissible, Holds, HeldBy;
    AdmissibleSame(provider, a, b, pool);
    var x := Admissible(provider, a, pool);
    var y := Admissible(provider, b, pool);
    if x.Ok? {
      var ex := Sweep(s, now).exhausted;
      SameMembers(x.value, y.value);
      NextResetSame(x.value, y.value, ex);
      FilterSame(IsLive(ex), x.value, y.value);
      var la := Filter(IsLive(ex), x.value);
      var lb := Filter(IsLive(ex), y.value);
      SameMembers(la, lb);
      HoldsSame(la, lb);
      HeldSame(la, lb);
    }
  }

  lemma HeldSame(a: seq<SubStatus>, b: seq<SubStatus>)
    requires forall sub :: Holds(a, sub) <==> Holds(b, sub)
    ensures forall sub: Option<SubId> :: HeldBy(a, sub) <==> HeldBy(b, sub)
  {
    hide Holds;
  }

  lemma CommitSame(s: State, provider: Provider, a: seq<SubStatus>, b: seq<SubStatus>, settings: Settings,
                   usageOf: SubId -> Option<Usage>, now: Timestamp)
    requires multiset(a) == multiset(b)
    requires settings.strategy.NeedsUsage() || forall sub :: usageOf(sub) == None
    ensures var xa := if settings.strategy.NeedsUsage() then ScoresOf(usageOf, a) else [];
            var xb := if settings.strategy.NeedsUsage() then ScoresOf(usageOf, b) else [];
            Commit(s, provider, a, settings, xa, now) == Commit(s, provider, b, settings, xb, now)
  {
    hide Score, Pick, NextReset, CandidatesOf, Marked, Filter, ScoresOf;
    var xa := if settings.strategy.NeedsUsage() then ScoresOf(usageOf, a) else [];
    var xb := if settings.strategy.NeedsUsage() then ScoresOf(usageOf, b) else [];
    SameMembers(a, b);
    HoldsSame(a, b);
    ScoreIsMarked(s, a, usageOf, now);
    ScoreIsMarked(s, b, usageOf, now);
    assert ReportedSubs(a, usageOf) == ReportedSubs(b, usageOf);
    var scored := if settings.strategy.NeedsUsage() then Score(s, a, xa, now) else s;
    CandidatesAre(scored.exhausted, a, xa, usageOf);
    CandidatesAre(scored.exhausted, b, xb, usageOf);
    FilterSame(IsLive(scored.exhausted), a, b);
    SameMembers(Filter(IsLive(scored.exhausted), a), Filter(IsLive(scored.exhausted), b));
    var ca := CandidatesOf(scored.exhausted, a, xa);
    var cb := CandidatesOf(scored.exhausted, b, xb);
    NextResetSame(a, b, scored.exhausted);
    if ca != [] {
      PickIgnoresOrder(settings.strategy, ca, cb, scored.cursors[provider.Index()]);
    }
  }

  function NoFigures(): SubId -> Option<Usage> { _ => None }

  /** A select, its error included, and the state it leaves do not depend on the order of the status list. */
  lemma ListOrderIsIrrelevant(s: State, provider: Provider, a: seq<SubStatus>, b: seq<SubStatus>, hints: Hints,
                              pool: Option<PoolGate>, usageOf: SubId -> Option<Usage>, now: Timestamp)
    requires multiset(a) == multiset(b)
    ensures Select(s, provider, a, hints, pool, usageOf, now) == Select(s, provider, b, hints, pool, usageOf, now)
  {
    hide Begin, Commit;
    BeginSame(s, provider, a, b, hints, pool, now);
    var (mid, x) := Begin(s, provider, a, hints, pool, now);
    var y := Begin(s, provider, b, hints, pool, now).1;
    if x.Proceed? {
      var figures := if x.settings.strategy.NeedsUsage() then usageOf else NoFigures();
      CommitSame(mid, provider, x.live, y.live, x.settings, figures, now);
    }
  }
}
