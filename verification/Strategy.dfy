/** How a sub is picked from the candidates, `crates/libsubby/src/balance/strategy.rs`. */
module Strategy {
  import opened Prelude
  import opened Balance

  datatype Candidate = Candidate(sub: SubId, usagePct: Option<real>, inFlight: nat, total: nat) {
    /** A candidate whose figure is missing ranks as if it were full. */
    function EffectivePct(): real { if usagePct.Some? then usagePct.value else 100.0 }
  }

  datatype Ordering = Less | Equal | Greater {
    function Then(next: Ordering): Ordering { if Equal? then next else this }
  }

  function CompareNat(a: nat, b: nat): Ordering { if a < b then Less else if a == b then Equal else Greater }

  function CompareReal(a: real, b: real): Ordering { if a < b then Less else if a == b then Equal else Greater }

  function KnownFirst(c: Candidate): nat { if c.usagePct.Some? then 0 else 1 }

  /** Below full first, then the unknown, then the full. */
  function DrainTier(c: Candidate): nat {
    match c.usagePct
    case Some(pct) => if pct < 100.0 then 0 else 2
    case None => 1
  }

  /** How a ranking strategy orders two candidates. */
  function Compare(kind: StrategyKind, a: Candidate, b: Candidate): Ordering {
    match kind
    case LowestUsage =>
      CompareNat(KnownFirst(a), KnownFirst(b))
        .Then(CompareReal(a.EffectivePct(), b.EffectivePct()))
        .Then(CompareNat(a.inFlight, b.inFlight))
        .Then(CompareNat(a.sub, b.sub))
    case HighestUsage =>
      CompareNat(DrainTier(a), DrainTier(b))
        .Then(CompareReal(b.EffectivePct(), a.EffectivePct()))
        .Then(CompareNat(a.inFlight, b.inFlight))
        .Then(CompareNat(a.sub, b.sub))
    case LeastConnections =>
      CompareNat(a.inFlight, b.inFlight)
        .Then(CompareNat(a.total, b.total))
        .Then(CompareNat(a.sub, b.sub))
    case RoundRobin => Equal
  }

  /** The first of the least candidates. */
  function PickMin(kind: StrategyKind, candidates: seq<Candidate>): (i: nat)
    requires candidates != []
    ensures i < |candidates|
  {
    if |candidates| == 1 then 0
    else
      var j := PickMin(kind, candidates[..|candidates| - 1]);
      if Compare(kind, candidates[|candidates| - 1], candidates[j]) == Less then |candidates| - 1 else j
  }

  /** Indices of candidates, in order of sub. */
  ghost predicate InSubOrder(candidates: seq<Candidate>, order: seq<nat>) {
    && (forall k :: 0 <= k < |order| ==> order[k] < |candidates|)
    && forall i, j :: 0 <= i < j < |order| ==> candidates[order[i]].sub <= candidates[order[j]].sub
  }

  /** The first `n` candidate indices in order of sub, ties in list order. */
  function SortedBySub(candidates: seq<Candidate>, n: nat): (r: seq<nat>)
    requires n <= |candidates|
    ensures |r| == n && InSubOrder(candidates, r)
    ensures forall i :: 0 <= i < n ==> i in r
  {
    if n == 0 then [] else InsertBySub(candidates, SortedBySub(candidates, n - 1), n - 1)
  }

  function InsertBySub(candidates: seq<Candidate>, order: seq<nat>, x: nat): (r: seq<nat>)
    requires x < |candidates| && InSubOrder(candidates, order)
    ensures |r| == |order| + 1 && InSubOrder(candidates, r)
    ensures forall i :: i in r <==> i in order || i == x
  {
    if order == [] then [x]
    else if candidates[x].sub < candidates[order[0]].sub then [x] + order
    else
      assert forall i :: i in order <==> i == order[0] || i in order[1..];
      assert InSubOrder(candidates, order[1..]);
      var rest := InsertBySub(candidates, order[1..], x);
      assert forall k :: 0 <= k < |rest| ==> rest[k] in rest;
      [order[0]] + rest
  }

  /** The first index in `order` whose sub lies after the cursor. */
  function FirstAfter(candidates: seq<Candidate>, order: seq<nat>, last: SubId): (r: Option<nat>)
    requires InSubOrder(candidates, order)
    ensures r.Some? ==> r.value in order && r.value < |candidates| && candidates[r.value].sub > last
  {
    if order == [] then None
    else if candidates[order[0]].sub > last then Some(order[0])
    else FirstAfter(candidates, order[1..], last)
  }

  function PickRoundRobin(candidates: seq<Candidate>, last: Option<SubId>): (i: nat)
    requires candidates != []
    ensures i < |candidates|
  {
    var order := SortedBySub(candidates, |candidates|);
    var after := if last.Some? then FirstAfter(candidates, order, last.value) else None;
    if after.Some? then after.value else order[0]
  }

  /** A strategy's choice, and the cursor it leaves. */
  function Pick(kind: StrategyKind, candidates: seq<Candidate>, last: Option<SubId>): (r: (nat, Option<SubId>))
    requires candidates != []
    ensures r.0 < |candidates|
  {
    if kind.RoundRobin? then
      var i := PickRoundRobin(candidates, last);
      (i, Some(candidates[i].sub))
    else (PickMin(kind, candidates), last)
  }

  // ---- The rankings ----

  /** The ranking is a total order, and only the same sub can tie. */
  lemma CompareIsTotal(kind: StrategyKind, a: Candidate, b: Candidate, c: Candidate)
    requires !kind.RoundRobin?
    ensures Compare(kind, a, b) == Equal ==> a.sub == b.sub
    ensures Compare(kind, a, b) == Less <==> Compare(kind, b, a) == Greater
    ensures Compare(kind, a, b) != Greater && Compare(kind, b, c) != Greater ==> Compare(kind, a, c) != Greater
  {
  }

  lemma {:induction false} PickIsLeast(kind: StrategyKind, candidates: seq<Candidate>, k: nat)
    requires !kind.RoundRobin? && k < |candidates|
    ensures Compare(kind, candidates[PickMin(kind, candidates)], candidates[k]) != Greater
  {
    hide Compare;
    var n := |candidates| - 1;
    if n == 0 {
      CompareIsTotal(kind, candidates[0], candidates[0], candidates[0]);
    } else {
      var init := candidates[..n];
      var j := PickMin(kind, init);
      assert init[j] == candidates[j];
      CompareIsTotal(kind, candidates[n], candidates[j], candidates[k]);
      CompareIsTotal(kind, candidates[n], candidates[n], candidates[n]);
      CompareIsTotal(kind, candidates[j], candidates[n], candidates[n]);
      if k < n {
        PickIsLeast(kind, init, k);
        assert init[k] == candidates[k];
      }
    }
  }

  /** What the rankings promise the user, each said without the comparison. */
  lemma RankingsMean(candidates: seq<Candidate>, last: Option<SubId>, k: nat)
    requires k < |candidates|
    ensures var best := candidates[Pick(LowestUsage, candidates, last).0];
            && (candidates[k].usagePct.Some? ==>
                 best.usagePct.Some? && best.usagePct.value <= candidates[k].usagePct.value)
            && (candidates[k].usagePct == best.usagePct ==> best.inFlight <= candidates[k].inFlight)
    ensures var best := candidates[Pick(HighestUsage, candidates, last).0];
            && (candidates[k].usagePct.Some? && candidates[k].usagePct.value < 100.0 ==>
                  best.usagePct.Some? && candidates[k].usagePct.value <= best.usagePct.value < 100.0)
            && (candidates[k].usagePct.None? ==> best.usagePct.None? || best.usagePct.value < 100.0)
            && (candidates[k].usagePct == best.usagePct ==> best.inFlight <= candidates[k].inFlight)
    ensures var best := candidates[Pick(LeastConnections, candidates, last).0];
            && best.inFlight <= candidates[k].inFlight
            && (best.inFlight == candidates[k].inFlight ==> best.total <= candidates[k].total)
  {
    PickIsLeast(LowestUsage, candidates, k);
    PickIsLeast(HighestUsage, candidates, k);
    PickIsLeast(LeastConnections, candidates, k);
  }

  // ---- Round robin ----

  lemma {:induction false} FirstAfterFinds(candidates: seq<Candidate>, order: seq<nat>, last: SubId)
    requires InSubOrder(candidates, order)
    ensures var r := FirstAfter(candidates, order, last);
            && (r.None? ==> forall k :: 0 <= k < |order| ==> candidates[order[k]].sub <= last)
            && (r.Some? ==> forall k :: 0 <= k < |order| && candidates[order[k]].sub > last ==>
                              candidates[r.value].sub <= candidates[order[k]].sub)
  {
    if order != [] {
      if candidates[order[0]].sub > last {
      } else {
        var rest := order[1..];
        assert forall k :: 0 <= k < |rest| ==> rest[k] == order[k + 1];
        FirstAfterFinds(candidates, rest, last);
        assert forall k :: 1 <= k < |order| ==> order[k] == rest[k - 1];
      }
    }
  }

  /** The next sub in circular order: the least one after the cursor, or the least of all. */
  lemma RoundRobinNext(candidates: seq<Candidate>, last: Option<SubId>, k: nat)
    requires k < |candidates|
    ensures var next := candidates[PickRoundRobin(candidates, last)].sub;
            var c := candidates[k].sub;
            && (last.Some? && c > last.value ==> last.value < next <= c)
            && (last.None? || next <= last.value ==> next <= c)
  {
    var order := SortedBySub(candidates, |candidates|);
    assert k in order;
    var p :| 0 <= p < |order| && order[p] == k;
    assert candidates[order[0]].sub <= candidates[k].sub;
    if last.Some? {
      FirstAfterFinds(candidates, order, last.value);
    }
  }

  /** Any strategy picks the same sub and leaves the same cursor however the candidates are listed. */
  lemma PickIgnoresOrder(kind: StrategyKind, a: seq<Candidate>, b: seq<Candidate>, last: Option<SubId>)
    requires a != [] && b != [] && forall c :: c in a <==> c in b
    ensures a[Pick(kind, a, last).0].sub == b[Pick(kind, b, last).0].sub
    ensures Pick(kind, a, last).1 == Pick(kind, b, last).1
  {
    hide Compare, SortedBySub, PickRoundRobin, PickMin;
    var i := Pick(kind, a, last).0;
    var j := Pick(kind, b, last).0;
    assert a[i] in b && b[j] in a;
    var i' :| 0 <= i' < |b| && b[i'] == a[i];
    var j' :| 0 <= j' < |a| && a[j'] == b[j];
    if kind.RoundRobin? {
      RoundRobinNext(a, last, j');
      RoundRobinNext(b, last, i');
    } else {
      PickIsLeast(kind, a, j');
      PickIsLeast(kind, b, i');
      CompareIsTotal(kind, a[i], b[j], b[j]);
    }
  }

  /** The subs a run of picks chooses, each time from the candidates then on offer. */
  function Picks(offers: seq<seq<Candidate>>, last: Option<SubId>): (r: seq<SubId>)
    requires forall i :: 0 <= i < |offers| ==> offers[i] != []
    ensures |r| == |offers|
  {
    if offers == [] then []
    else
      var sub := offers[0][PickRoundRobin(offers[0], last)].sub;
      [sub] + Picks(offers[1..], Some(sub))
  }

  ghost predicate Offers(candidates: seq<Candidate>, sub: SubId) {
    exists k :: 0 <= k < |candidates| && candidates[k].sub == sub
  }

  /** Where `x` lies on the way round to `target`: subs after it come first, those before it next. */
  function WayTo(target: SubId, x: SubId): (nat, nat) { if x > target then (0, x) else (1, x) }

  predicate Before(a: (nat, nat), b: (nat, nat)) { a.0 < b.0 || (a.0 == b.0 && a.1 < b.1) }

  lemma PickMovesOn(candidates: seq<Candidate>, last: SubId, target: SubId)
    requires candidates != [] && Offers(candidates, target) && last != target
    ensures var next := candidates[PickRoundRobin(candidates, Some(last))].sub;
            next == target || Before(WayTo(target, last), WayTo(target, next))
    ensures var next := candidates[PickRoundRobin(candidates, Some(last))].sub;
            Offers(candidates, next)
  {
    var k :| 0 <= k < |candidates| && candidates[k].sub == target;
    RoundRobinNext(candidates, Some(last), k);
  }

  /** While `target` is on offer and passed over, the picks move strictly on along the way to it. */
  lemma {:induction false} PassedOver(offers: seq<seq<Candidate>>, last: Option<SubId>, target: SubId, j: nat)
    requires forall i :: 0 <= i < |offers| ==> offers[i] != [] && Offers(offers[i], target)
    requires j < |offers| && forall i :: 0 <= i <= j ==> Picks(offers, last)[i] != target
    ensures forall i :: 0 <= i < j ==>
              Before(WayTo(target, Picks(offers, last)[i]), WayTo(target, Picks(offers, last)[j]))
    decreases j
  {
    hide PickRoundRobin, WayTo, Before;
    if j > 0 {
      var picks := Picks(offers, last);
      PicksStep(offers, last, j);
      PickMovesOn(offers[j], picks[j - 1], target);
      PassedOver(offers, last, target, j - 1);
      forall i | 0 <= i < j
        ensures Before(WayTo(target, picks[i]), WayTo(target, picks[j]))
      {
        if i < j - 1 {
          BeforeTransitive(WayTo(target, picks[i]), WayTo(target, picks[j - 1]), WayTo(target, picks[j]));
        }
      }
    }
  }

  lemma BeforeTransitive(a: (nat, nat), b: (nat, nat), c: (nat, nat))
    requires Before(a, b) && Before(b, c)
    ensures Before(a, c)
  {
  }

  lemma {:induction false} PicksStep(offers: seq<seq<Candidate>>, last: Option<SubId>, j: nat)
    requires forall i :: 0 <= i < |offers| ==> offers[i] != []
    requires 0 < j < |offers|
    ensures Picks(offers, last)[j] == offers[j][PickRoundRobin(offers[j], Some(Picks(offers, last)[j - 1]))].sub
    decreases j
  {
    hide PickRoundRobin;
    var sub := offers[0][PickRoundRobin(offers[0], last)].sub;
    var rest := offers[1..];
    assert Picks(offers, last) == [sub] + Picks(rest, Some(sub));
    if j > 1 {
      PicksStep(rest, Some(sub), j - 1);
    } else {
      assert Picks(rest, Some(sub))[0] == rest[0][PickRoundRobin(rest[0], Some(sub))].sub;
    }
  }

  lemma PickedWasOffered(offers: seq<seq<Candidate>>, last: Option<SubId>, i: nat)
    requires forall i :: 0 <= i < |offers| ==> offers[i] != []
    requires i < |offers|
    ensures Offers(offers[i], Picks(offers, last)[i])
    decreases i
  {
    hide PickRoundRobin;
    if i == 0 {
      assert Offers(offers[0], offers[0][PickRoundRobin(offers[0], last)].sub);
    } else {
      PicksStep(offers, last, i);
      assert Offers(offers[i], offers[i][PickRoundRobin(offers[i], Some(Picks(offers, last)[i - 1]))].sub);
    }
  }

  /**
   * Bounded waiting under churn: from any cursor, over candidate sets that may change at every pick, a
   * sub that is always on offer is chosen after at most one pick of each other sub ever offered.
   */
  lemma BoundedWaiting(offers: seq<seq<Candidate>>, last: Option<SubId>, target: SubId, others: set<SubId>)
    requires forall i :: 0 <= i < |offers| ==> offers[i] != [] && Offers(offers[i], target)
    requires forall i, k :: 0 <= i < |offers| && 0 <= k < |offers[i]| && offers[i][k].sub != target ==>
               offers[i][k].sub in others
    requires target !in others && |offers| > |others|
    ensures exists i :: 0 <= i <= |others| && Picks(offers, last)[i] == target
  {
    hide Picks, PickRoundRobin;
    var picks := Picks(offers, last);
    if forall i :: 0 <= i <= |others| ==> picks[i] != target {
      var n := |others| + 1;
      forall i, j | 0 <= i < j < n
        ensures picks[i] != picks[j]
      {
        PassedOver(offers, last, target, j);
      }
      forall i | 0 <= i < n
        ensures picks[i] in others
      {
        PickedWasOffered(offers, last, i);
      }
      DistinctFit(picks[..n], others);
      assert false;
    }
  }

  /** Distinct members of a set are no more than it has. */
  lemma {:induction false} DistinctFit(xs: seq<SubId>, s: set<SubId>)
    requires forall i, j :: 0 <= i < j < |xs| ==> xs[i] != xs[j]
    requires forall i :: 0 <= i < |xs| ==> xs[i] in s
    ensures |xs| <= |s|
  {
    if xs != [] {
      forall i | 0 <= i < |xs[1..]|
        ensures xs[1..][i] in s - {xs[0]}
      {
        assert xs[1..][i] == xs[i + 1];
      }
      DistinctFit(xs[1..], s - {xs[0]});
    }
  }

  function Repeated(candidates: seq<Candidate>, n: nat): (r: seq<seq<Candidate>>)
    ensures |r| == n && forall i :: 0 <= i < n ==> r[i] == candidates
  {
    seq(n, _ => candidates)
  }

  /** On a fixed set of n subs, any n picks in a row choose each exactly once. */
  lemma FixedSetCycles(candidates: seq<Candidate>, last: Option<SubId>, subs: set<SubId>, target: SubId)
    requires candidates != [] && target in subs
    requires forall s :: s in subs <==> Offers(candidates, s)
    ensures var offers := Repeated(candidates, |subs|);
            var picks := Picks(offers, last);
            && target in picks
            && forall i, j :: 0 <= i < j < |subs| ==> picks[i] != picks[j]
  {
    hide Picks;
    var n := |subs|;
    var offers := Repeated(candidates, n);
    var picks := Picks(offers, last);
    forall s | s in subs
      ensures exists i :: 0 <= i < n && picks[i] == s
    {
      assert n == |subs - {s}| + 1;
      forall k | 0 <= k < |candidates| && candidates[k].sub != s
        ensures candidates[k].sub in subs - {s}
      {
        assert Offers(candidates, candidates[k].sub);
      }
      BoundedWaiting(offers, last, s, subs - {s});
    }
    AllSeenOnce(picks, subs);
  }

  /** A list no longer than the set, holding all of the set, repeats nothing. */
  lemma AllSeenOnce(xs: seq<SubId>, s: set<SubId>)
    requires |xs| == |s|
    requires forall x :: x in s ==> exists i :: 0 <= i < |xs| && xs[i] == x
    ensures forall i, j :: 0 <= i < j < |xs| ==> xs[i] != xs[j]
  {
    forall i, j | 0 <= i < j < |xs|
      ensures xs[i] != xs[j]
    {
      if xs[i] == xs[j] {
        var fewer := xs[..j] + xs[j + 1..];
        forall x | x in s
          ensures x in fewer
        {
          var k :| 0 <= k < |xs| && xs[k] == x;
          if k == j {
            assert fewer[i] == x;
          } else {
            assert fewer[if k < j then k else k - 1] == x;
          }
        }
        SetNoLarger(s, fewer);
        assert false;
      }
    }
  }

  lemma {:induction false} SetNoLarger(s: set<SubId>, xs: seq<SubId>)
    requires forall x :: x in s ==> x in xs
    ensures |s| <= |xs|
  {
    if xs == [] {
      assert s == {};
    } else {
      forall x | x in s - {xs[0]}
        ensures x in xs[1..]
      {
      }
      SetNoLarger(s - {xs[0]}, xs[1..]);
    }
  }
}
