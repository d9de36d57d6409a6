/** The router's vocabulary, `crates/libsubby/src/balance/mod.rs:22-381`. */
module Balance {
  import opened Prelude

  type SubId = nat

  /** Nanoseconds since the epoch. */
  type Timestamp = int

  const NANOS_PER_SECOND: int := 1_000_000_000

  const BLIND_EXHAUSTION: int := 5 * 60 * NANOS_PER_SECOND

  const RESET_DROP_PCT: real := 10.0

  datatype Provider = Codex | Claude {
    function Index(): (i: nat)
      ensures i < 2
    {
      if Codex? then 0 else 1
    }
  }

  datatype StrategyKind = LowestUsage | HighestUsage | RoundRobin | LeastConnections {
    predicate DefaultSticky() { LowestUsage? || HighestUsage? }

    predicate NeedsUsage() { LowestUsage? || HighestUsage? }
  }

  // ---- Failures ----

  const USAGE_LIMIT_MARKERS: seq<string> := [
    "GoUsageLimitError", "FreeUsageLimitError", "Monthly usage limit reached", "usage limit", "usage_limit",
    "out of budget", "quota exceeded"
  ]

  function LowerAscii(c: char): char { if 'A' <= c <= 'Z' then c - 'A' + 'a' else c }

  predicate StandsAt(haystack: string, i: nat, needle: string) {
    && i + |needle| <= |haystack|
    && forall k :: 0 <= k < |needle| ==> LowerAscii(haystack[i + k]) == LowerAscii(needle[k])
  }

  predicate ContainsIgnoringCase(haystack: string, needle: string) {
    exists i :: 0 <= i <= |haystack| && StandsAt(haystack, i, needle)
  }

  predicate IsUsageLimitBody(body: string) {
    exists i :: 0 <= i < |USAGE_LIMIT_MARKERS| && ContainsIgnoringCase(body, USAGE_LIMIT_MARKERS[i])
  }

  /** The same letter, whichever its case. */
  predicate SameLetter(c: char, d: char) {
    c == d || ('A' <= c <= 'Z' && d == c - 'A' + 'a') || ('A' <= d <= 'Z' && c == d - 'A' + 'a')
  }

  /** Whether a body speaks of a usage limit does not depend on its case, nor on what stands around the words. */
  lemma CaseIsIgnored(a: string, b: string)
    requires |a| == |b| && forall i :: 0 <= i < |a| ==> SameLetter(a[i], b[i])
    ensures IsUsageLimitBody(a) <==> IsUsageLimitBody(b)
  {
    hide USAGE_LIMIT_MARKERS;
    forall i: nat, needle | StandsAt(a, i, needle)
      ensures StandsAt(b, i, needle)
    {
    }
    forall i: nat, needle | StandsAt(b, i, needle)
      ensures StandsAt(a, i, needle)
    {
    }
  }

  lemma LimitFoundAnywhere(before: string, after: string, k: nat)
    requires k < |USAGE_LIMIT_MARKERS|
    ensures IsUsageLimitBody(before + USAGE_LIMIT_MARKERS[k] + after)
  {
    hide USAGE_LIMIT_MARKERS;
    var marker := USAGE_LIMIT_MARKERS[k];
    assert StandsAt(before + marker + after, |before|, marker);
  }

  predicate IsUsageLimitError(status: nat, body: string) { status == 429 && IsUsageLimitBody(body) }

  datatype Attempt = Attempt(status: nat, body: string, requestScoped: bool, retriedAuth: bool) {
    function Classify(): FailureClass {
      if requestScoped then RequestScoped
      else if status == 429 then if IsUsageLimitBody(body) then UsageLimit else RateLimited
      else if status == 401 then if retriedAuth then AuthPermanent else AuthRetryable
      else Passthrough
    }
  }

  datatype FailureClass =
    | UsageLimit | RequestScoped | RateLimited | AuthRetryable | AuthPermanent
    | RefreshTransient | RefreshPermanent | Passthrough
  {
    predicate Quarantines() { UsageLimit? || AuthPermanent? || RefreshPermanent? }

    function Disposition(): Disposition {
      match this
      case UsageLimit | AuthPermanent | RefreshPermanent => Rotate
      case AuthRetryable => RetrySameSub
      case RefreshTransient => Fail(502)
      case RequestScoped | RateLimited | Passthrough => PassThrough
    }
  }

  /**
   * Only a usage limit said in so many words, or a 401 that outlived its retry, quarantines a sub and moves on to the
   * next; a first 401 is tried again; a plain 429 and everything about the request alone go back to the client.
   */
  lemma OnlySpentOrRefusedMovesOn(attempt: Attempt)
    ensures var failure := attempt.Classify();
            var limit := attempt.status == 429 && IsUsageLimitBody(attempt.body);
            && (failure.Quarantines() <==>
                  !attempt.requestScoped && (limit || (attempt.status == 401 && attempt.retriedAuth)))
            && (failure.Disposition().Rotate? <==> failure.Quarantines())
            && (failure.Disposition().RetrySameSub? <==>
                  !attempt.requestScoped && attempt.status == 401 && !attempt.retriedAuth)
            && !failure.Disposition().Fail?
  {
    hide IsUsageLimitBody;
  }

  datatype Disposition = PassThrough | RetrySameSub | Rotate | Fail(status: nat)

  // ---- Usage ----

  datatype Window = Window(pct: real, resetsAt: Option<Timestamp>)

  datatype Usage = Usage(session: Option<Window>, weekly: Option<Window>, limitReached: Option<bool>)

  function PctOf(w: Option<Window>): real { if w.Some? then w.value.pct else 0.0 }

  function EffectivePct(usage: Usage): real {
    if PctOf(usage.session) < PctOf(usage.weekly) then PctOf(usage.weekly) else PctOf(usage.session)
  }

  predicate IsExhausted(usage: Usage) { usage.limitReached == Some(true) || EffectivePct(usage) >= 100.0 }

  /** The provider says so, or one of the windows is full. */
  predicate UsedUp(usage: Usage) {
    || usage.limitReached == Some(true)
    || (usage.session.Some? && usage.session.value.pct >= 100.0)
    || (usage.weekly.Some? && usage.weekly.value.pct >= 100.0)
  }

  /** Either window alone uses a sub up, and so does the provider's own word. */
  lemma UsedUpByEither(usage: Usage)
    ensures IsExhausted(usage) <==> UsedUp(usage)
  {
  }

  /** No figure lies above `pct`; a window that is not known stands at zero. */
  predicate AllWithin(usage: Usage, pct: real) {
    && (if usage.session.Some? then usage.session.value.pct else 0.0) <= pct
    && (if usage.weekly.Some? then usage.weekly.value.pct else 0.0) <= pct
  }

  /** The percentage a sub is judged by is the least that no figure exceeds. */
  lemma WorseOfBoth(usage: Usage, pct: real)
    ensures EffectivePct(usage) <= pct <==> AllWithin(usage, pct)
  {
  }

  /** The window, if it is known to reset later than `now`. */
  function Future(now: Timestamp, w: Option<Window>): seq<(real, Timestamp)> {
    if w.Some? && w.value.resetsAt.Some? && w.value.resetsAt.value > now
    then [(w.value.pct, w.value.resetsAt.value)]
    else []
  }

  function FutureWindows(now: Timestamp, usage: Option<Usage>): seq<(real, Timestamp)> {
    if usage.None? then [] else Future(now, usage.value.session) + Future(now, usage.value.weekly)
  }

  function FullWindows(windows: seq<(real, Timestamp)>): seq<(real, Timestamp)> {
    if windows == [] then []
    else (if windows[0].0 >= 100.0 then [windows[0]] else []) + FullWindows(windows[1..])
  }

  function LatestReset(windows: seq<(real, Timestamp)>): Option<Timestamp> {
    if windows == [] then None
    else
      var rest := LatestReset(windows[1..]);
      if rest.Some? && rest.value >= windows[0].1 then rest else Some(windows[0].1)
  }

  function EarliestReset(windows: seq<(real, Timestamp)>): Option<Timestamp> {
    if windows == [] then None
    else
      var rest := EarliestReset(windows[1..]);
      if rest.Some? && rest.value < windows[0].1 then rest else Some(windows[0].1)
  }

  function ExhaustUntil(now: Timestamp, usage: Option<Usage>): Timestamp {
    var windows := FutureWindows(now, usage);
    match LatestReset(FullWindows(windows))
    case Some(at) => at
    case None =>
      match EarliestReset(windows)
      case Some(at) => at
      case None => now + BLIND_EXHAUSTION
  }

  ghost predicate ResetsLater(now: Timestamp, usage: Option<Usage>, pct: real, at: Timestamp) {
    && usage.Some? && at > now
    && (usage.value.session == Some(Window(pct, Some(at))) || usage.value.weekly == Some(Window(pct, Some(at))))
  }

  /**
   * A quarantine ends strictly later than it was recorded: at the latest reset still to come of a full
   * window; without one, at the earliest reset still to come; without any, five minutes on.
   */
  lemma QuarantineEnd(now: Timestamp, usage: Option<Usage>)
    ensures var until := ExhaustUntil(now, usage);
            && until > now
            && ((exists pct, at :: ResetsLater(now, usage, pct, at) && pct >= 100.0) ==>
                  && (exists pct :: ResetsLater(now, usage, pct, until) && pct >= 100.0)
                  && forall pct, at :: ResetsLater(now, usage, pct, at) && pct >= 100.0 ==> at <= until)
            && ((forall pct, at :: ResetsLater(now, usage, pct, at) ==> pct < 100.0) ==>
                  && (forall pct, at :: ResetsLater(now, usage, pct, at) ==> until <= at)
                  && ((exists pct, at :: ResetsLater(now, usage, pct, at)) ==>
                        exists pct :: ResetsLater(now, usage, pct, until))
                  && ((forall pct, at :: !ResetsLater(now, usage, pct, at)) ==> until == now + BLIND_EXHAUSTION))
  {
    hide FutureWindows, FullWindows, LatestReset, EarliestReset, ResetsLater;
    var windows := FutureWindows(now, usage);
    WindowsAre(now, usage);
    LatestOfFull(windows);
    EarliestOfAll(windows);
    assert forall w :: w in windows ==> ResetsLater(now, usage, w.0, w.1);
    assert forall pct, at :: ResetsLater(now, usage, pct, at) ==> at > now by { ResetsAreLater(now, usage); }
  }

  lemma ResetsAreLater(now: Timestamp, usage: Option<Usage>)
    ensures forall pct, at :: ResetsLater(now, usage, pct, at) ==> at > now
  {
  }

  lemma WindowsAre(now: Timestamp, usage: Option<Usage>)
    ensures forall pct, at :: ResetsLater(now, usage, pct, at) <==> (pct, at) in FutureWindows(now, usage)
  {
    if usage.Some? {
      FutureIs(now, usage.value.session);
      FutureIs(now, usage.value.weekly);
    }
  }

  lemma FutureIs(now: Timestamp, w: Option<Window>)
    ensures forall pct, at :: (pct, at) in Future(now, w) <==> w == Some(Window(pct, Some(at))) && at > now
  {
  }

  lemma {:induction false} LatestOfFull(windows: seq<(real, Timestamp)>)
    ensures match LatestReset(FullWindows(windows))
            case Some(latest) =>
              && (exists w :: w in windows && w.0 >= 100.0 && w.1 == latest)
              && forall w :: w in windows && w.0 >= 100.0 ==> w.1 <= latest
            case None => forall w :: w in windows ==> w.0 < 100.0
  {
    if windows != [] {
      var rest := windows[1..];
      LatestOfFull(rest);
      assert forall w :: w in windows <==> w == windows[0] || w in rest;
      LatestStep(windows[0], FullWindows(rest));
      assert windows[0] in windows;
    }
  }

  lemma LatestStep(w: (real, Timestamp), rest: seq<(real, Timestamp)>)
    ensures var latest := LatestReset(rest);
            LatestReset([w] + rest) == if latest.Some? && latest.value >= w.1 then latest else Some(w.1)
    ensures [] + rest == rest
  {
    assert ([w] + rest)[1..] == rest;
  }

  lemma {:induction false} EarliestOfAll(windows: seq<(real, Timestamp)>)
    ensures match EarliestReset(windows)
            case Some(earliest) =>
              && (exists w :: w in windows && w.1 == earliest)
              && forall w :: w in windows ==> earliest <= w.1
            case None => windows == []
  {
    if windows != [] {
      var rest := windows[1..];
      EarliestOfAll(rest);
      assert forall w :: w in windows <==> w == windows[0] || w in rest;
      assert windows[0] in windows;
    }
  }

  // ---- Pools and requests ----

  datatype SubStatus = SubStatus(
    sub: SubId, provider: Provider, enabled: bool, needsLogin: bool,
    inFlight: nat, total: nat, sessionPct: Option<real>, weeklyPct: Option<real>)

  datatype PoolGate = PoolGate(name: string, members: Option<set<SubId>>, maxSessionPct: real, maxWeeklyPct: real) {
    predicate Contains(sub: SubId) { members.None? || sub in members.value }

    predicate Admits(status: SubStatus) {
      && Contains(status.sub)
      && (status.sessionPct.None? || status.sessionPct.value < maxSessionPct)
      && (status.weeklyPct.None? || status.weeklyPct.value < maxWeeklyPct)
    }

    predicate HasCeiling() { maxSessionPct < 100.0 || maxWeeklyPct < 100.0 }
  }

  datatype Hints = Hints(chain: Option<SubId>, key: Option<SubId>)

  datatype SelectReason = Pinned | Frozen | Affinity | Placement | Sticky | ByStrategy(kind: StrategyKind)

  datatype Selection = Selection(sub: SubId, reason: SelectReason, candidates: nat)

  datatype SelectError =
    | NotProxied(provider: Provider)
    | NoCandidates(provider: Provider)
    | PoolEmpty(pool: string, overCeiling: bool)
    | UnknownPool(pool: string)
    | AllExhausted(provider: Provider, nextReset: Option<Timestamp>)
}
