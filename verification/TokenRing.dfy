/** The proxied-token ring of one counter, `crates/libsubby/src/proxy/metrics.rs:14-58` and `94-113`. */
module TokenRing {
  import opened Prelude
  import opened Balance

  const TOKEN_WINDOW: int := 3600 * NANOS_PER_SECOND

  const MAX_TICKS: nat := 8192

  const TIMESTAMP_MIN: Timestamp := -377705023201 * NANOS_PER_SECOND

  datatype Tick = Tick(at: Timestamp, input: nat, output: nat)

  function Cutoff(at: Timestamp): Timestamp {
    if at - TOKEN_WINDOW < TIMESTAMP_MIN then TIMESTAMP_MIN else at - TOKEN_WINDOW
  }

  function SaturatingAdd(a: nat, b: nat): nat { if a + b > U64_MAX then U64_MAX else a + b }

  function Newer(ticks: seq<Tick>, cutoff: Timestamp): seq<Tick> {
    if ticks == [] then []
    else (if ticks[0].at > cutoff then [ticks[0]] else []) + Newer(ticks[1..], cutoff)
  }

  /** The last `MAX_TICKS` of them. */
  function Newest(ticks: seq<Tick>): seq<Tick> {
    if |ticks| > MAX_TICKS then ticks[|ticks| - MAX_TICKS..] else ticks
  }

  function Recorded(ticks: seq<Tick>, tick: Tick): seq<Tick> { Newest(Newer(ticks, Cutoff(tick.at)) + [tick]) }

  /** The tokens of the ticks up to `now`, added one after another without overflow. */
  function Added(ticks: seq<Tick>, now: Timestamp, sum: nat): nat
    decreases |ticks|
  {
    if ticks == [] then sum
    else
      var tokens := SaturatingAdd(ticks[0].input, ticks[0].output);
      Added(ticks[1..], now, if ticks[0].at <= now then SaturatingAdd(sum, tokens) else sum)
  }

  lemma NewerStep(ticks: seq<Tick>, cutoff: Timestamp)
    requires ticks != []
    ensures Newer(ticks, cutoff) == (if ticks[0].at > cutoff then [ticks[0]] else []) + Newer(ticks[1..], cutoff)
  {
  }

  lemma NothingNewer(cutoff: Timestamp)
    ensures Newer([], cutoff) == []
  {
  }

  // ---- In place ----

  class TickRing {
    var ticks: seq<Tick>

    constructor ()
      ensures ticks == []
    {
      ticks := [];
    }

    method Retain(cutoff: Timestamp)
      modifies this
      ensures ticks == Newer(old(ticks), cutoff)
    {
      hide Newer;
      var kept := [];
      var i := 0;
      assert ticks[0..] == ticks;
      while i < |ticks|
        invariant 0 <= i <= |ticks| && ticks == old(ticks)
        invariant Newer(ticks, cutoff) == kept + Newer(ticks[i..], cutoff)
      {
        assert ticks[i..][1..] == ticks[i + 1..];
        NewerStep(ticks[i..], cutoff);
        if ticks[i].at > cutoff {
          Assoc(kept, [ticks[i]], Newer(ticks[i + 1..], cutoff));
          kept := kept + [ticks[i]];
        }
        i := i + 1;
      }
      NothingNewer(cutoff);
      assert ticks[i..] == [] && kept + [] == kept;
      ticks := kept;
    }

    /** Reading is also when ticks expire. */
    method TokensSince(cutoff: Timestamp, now: Timestamp) returns (sum: nat)
      modifies this
      ensures ticks == Newer(old(ticks), cutoff)
      ensures sum == Added(ticks, now, 0)
    {
      hide Newer;
      Retain(cutoff);
      sum := 0;
      var i := 0;
      assert ticks[0..] == ticks;
      while i < |ticks|
        invariant 0 <= i <= |ticks| && ticks == Newer(old(ticks), cutoff)
        invariant Added(ticks, now, 0) == Added(ticks[i..], now, sum)
      {
        assert ticks[i..][1..] == ticks[i + 1..];
        if ticks[i].at <= now {
          sum := SaturatingAdd(sum, SaturatingAdd(ticks[i].input, ticks[i].output));
        }
        i := i + 1;
      }
    }

    method Record(tick: Tick)
      modifies this
      ensures ticks == Recorded(old(ticks), tick)
    {
      hide Newer;
      Retain(Cutoff(tick.at));
      ticks := ticks + [tick];
      if |ticks| > MAX_TICKS {
        var overflow := |ticks| - MAX_TICKS;
        ticks := ticks[overflow..];
      }
    }
  }

  // ---- Against the full log ----

  datatype Event = Record(tick: Tick) | Read(now: Timestamp)

  function TimeOf(event: Event): Timestamp { match event case Record(tick) => tick.at case Read(now) => now }

  ghost predicate InOrder(events: seq<Event>) {
    forall i, j :: 0 <= i < j < |events| ==> TimeOf(events[i]) <= TimeOf(events[j])
  }

  /** Every tick ever recorded. */
  function Log(events: seq<Event>): seq<Tick> {
    if events == [] then []
    else
      var rest := Log(events[..|events| - 1]);
      match events[|events| - 1] case Record(tick) => rest + [tick] case Read(_) => rest
  }

  /** The ring after these events. */
  function Ring(events: seq<Event>): seq<Tick> {
    if events == [] then []
    else
      var ring := Ring(events[..|events| - 1]);
      match events[|events| - 1]
      case Record(tick) => Recorded(ring, tick)
      case Read(now) => Newer(ring, Cutoff(now))
  }

  ghost predicate Sorted(ticks: seq<Tick>) { forall i, j :: 0 <= i < j < |ticks| ==> ticks[i].at <= ticks[j].at }

  /** How many ticks at the front are too old. */
  function Expired(ticks: seq<Tick>, cutoff: Timestamp): (n: nat)
    ensures n <= |ticks|
  {
    if ticks == [] || ticks[0].at > cutoff then 0 else 1 + Expired(ticks[1..], cutoff)
  }

  /** In time order, what is too old is a prefix, and expiring drops just that. */
  lemma {:induction false} ExpiredIsPrefix(ticks: seq<Tick>, cutoff: Timestamp)
    requires Sorted(ticks)
    ensures forall i :: 0 <= i < |ticks| ==> (i < Expired(ticks, cutoff) <==> ticks[i].at <= cutoff)
    ensures Newer(ticks, cutoff) == ticks[Expired(ticks, cutoff)..]
  {
    hide Newer;
    if ticks != [] {
      var rest := ticks[1..];
      assert forall i :: 1 <= i < |ticks| ==> ticks[i] == rest[i - 1];
      NewerStep(ticks, cutoff);
      if ticks[0].at > cutoff {
        NoneExpired(ticks, cutoff);
      } else {
        ExpiredIsPrefix(rest, cutoff);
        assert rest[Expired(rest, cutoff)..] == ticks[Expired(ticks, cutoff)..];
      }
    } else {
      NothingLost(cutoff);
    }
  }

  lemma {:induction false} NoneExpired(ticks: seq<Tick>, cutoff: Timestamp)
    requires forall i :: 0 <= i < |ticks| ==> ticks[i].at > cutoff
    ensures Newer(ticks, cutoff) == ticks
  {
    hide Newer;
    if ticks != [] {
      NewerStep(ticks, cutoff);
      NoneExpired(ticks[1..], cutoff);
      assert ticks == [ticks[0]] + ticks[1..];
    } else {
      NothingLost(cutoff);
    }
  }

  lemma ExpiredIs(ticks: seq<Tick>, cutoff: Timestamp, n: nat)
    requires Sorted(ticks) && n <= |ticks|
    requires forall i :: 0 <= i < |ticks| ==> (i < n <==> ticks[i].at <= cutoff)
    ensures Expired(ticks, cutoff) == n
  {
    hide Newer, Expired;
    ExpiredIsPrefix(ticks, cutoff);
    var m := Expired(ticks, cutoff);
    assert m < |ticks| ==> ticks[m].at > cutoff;
    assert n < |ticks| ==> ticks[n].at > cutoff;
  }

  /** How many ticks of the full log are not among the newest. */
  function Over(log: seq<Tick>): nat { if |log| > MAX_TICKS then |log| - MAX_TICKS else 0 }

  /** How many are not, or are too old. */
  function Lost(log: seq<Tick>, cutoff: Timestamp): (n: nat)
    ensures Over(log) <= n <= |log|
  {
    Max(Over(log), Expired(log, cutoff))
  }

  lemma NewerOfSuffix(log: seq<Tick>, low: nat, cutoff: Timestamp)
    requires Sorted(log) && low <= |log|
    ensures Newer(log[low..], cutoff) == log[Max(low, Expired(log, cutoff))..]
  {
    hide Newer, Expired;
    var rest := log[low..];
    ExpiredIsPrefix(log, cutoff);
    ExpiredIsPrefix(rest, cutoff);
    ExpiredIs(rest, cutoff, Max(low, Expired(log, cutoff)) - low);
    assert rest[Expired(rest, cutoff)..] == log[low + Expired(rest, cutoff)..];
  }

  lemma {:induction false} LaterExpiresMore(log: seq<Tick>, cutoff: Timestamp, later: Timestamp)
    requires Sorted(log) && cutoff <= later
    ensures Expired(log, cutoff) <= Expired(log, later)
  {
    hide Newer, Expired;
    ExpiredIsPrefix(log, cutoff);
    ExpiredIsPrefix(log, later);
    var m := Expired(log, later);
    assert m < |log| ==> log[m].at > later;
  }

  lemma {:induction false} LogInOrder(events: seq<Event>)
    requires InOrder(events)
    ensures Sorted(Log(events))
    ensures forall i :: 0 <= i < |Log(events)| ==> Log(events)[i].at <= TimeOf(events[|events| - 1])
  {
    if events != [] {
      var last := |events| - 1;
      var init := events[..last];
      assert forall i :: 0 <= i < last ==> init[i] == events[i];
      LogInOrder(init);
    }
  }

  /** A ring that has lost no more than it must loses, by a later cutoff, exactly what it must. */
  lemma RingExpires(log: seq<Tick>, low: nat, cutoff: Timestamp, later: Timestamp)
    requires Sorted(log) && cutoff <= later && Over(log) <= low <= Lost(log, cutoff)
    ensures Newer(log[low..], later) == log[Lost(log, later)..]
  {
    hide Newer, Expired;
    NewerOfSuffix(log, low, later);
    LaterExpiresMore(log, cutoff, later);
  }

  lemma LostGrows(log: seq<Tick>, tick: Tick, cutoff: Timestamp)
    requires Sorted(log + [tick])
    ensures var more := log + [tick];
            var low := Max(Lost(log, cutoff), Over(more));
            && low <= Lost(more, cutoff)
            && (tick.at > cutoff ==> low == Lost(more, cutoff))
  {
    hide Newer, Expired;
    var more := log + [tick];
    assert forall i :: 0 <= i < |log| ==> more[i] == log[i];
    assert Sorted(log);
    ExpiredIsPrefix(log, cutoff);
    ExpiredIsPrefix(more, cutoff);
    var n := Expired(more, cutoff);
    assert n < |log| ==> more[n] == log[n];
    if tick.at > cutoff {
      ExpiredIs(more, cutoff, Expired(log, cutoff));
    }
  }

  lemma RingGrows(log: seq<Tick>, tick: Tick, cutoff: Timestamp) returns (low: nat)
    requires Sorted(log + [tick])
    ensures var more := log + [tick];
            && Over(more) <= low <= Lost(more, cutoff)
            && Newest(log[Lost(log, cutoff)..] + [tick]) == more[low..]
            && (tick.at > cutoff ==> low == Lost(more, cutoff))
  {
    hide Newer, Expired, Lost, Sorted;
    LostGrows(log, tick, cutoff);
    var more, kept := log + [tick], Lost(log, cutoff);
    low := Max(kept, Over(more));
    assert log[kept..] + [tick] == more[kept..];
    if |more| - kept > MAX_TICKS {
      assert more[kept..][|more| - kept - MAX_TICKS..] == more[Over(more)..];
    }
  }

  /**
   * The pruned and capped ring is the newest part of the full log: what is missing is older than an hour or not
   * among the newest 8192, and after a read all of that is missing.
   */
  lemma {:induction false} RingIsRecentLog(events: seq<Event>) returns (low: nat)
    requires events != [] && InOrder(events)
    ensures var log := Log(events);
            var cutoff := Cutoff(TimeOf(events[|events| - 1]));
            && Over(log) <= low <= Lost(log, cutoff)
            && Ring(events) == log[low..]
            && (events[|events| - 1].Read? || TimeOf(events[|events| - 1]) > TIMESTAMP_MIN ==>
                  low == Lost(log, cutoff))
  {
    hide Newer, Expired, Lost, Newest, Over;
    var last := |events| - 1;
    var init := events[..last];
    var cutoff := Cutoff(TimeOf(events[last]));
    assert forall i :: 0 <= i < last ==> init[i] == events[i];
    LogInOrder(events);
    LogInOrder(init);
    var log := Log(init);
    if init == [] {
      NothingLost(cutoff);
    } else {
      var before := RingIsRecentLog(init);
      RingExpires(log, before, Cutoff(TimeOf(init[last - 1])), cutoff);
    }
    if events[last].Record? {
      low := RingGrows(log, events[last].tick, cutoff);
    } else {
      low := Lost(log, cutoff);
    }
  }

  lemma NothingLost(cutoff: Timestamp)
    ensures Newer([], cutoff) == [] && Expired([], cutoff) == 0 && Lost([], cutoff) == 0
  {
  }

  /** The tokens of the last hour among these ticks, unbounded. */
  function HourTotal(ticks: seq<Tick>, now: Timestamp): nat {
    if ticks == [] then 0
    else
      var counts := TIMESTAMP_MIN < ticks[0].at && now - 3600 * NANOS_PER_SECOND < ticks[0].at <= now;
      (if counts then ticks[0].input + ticks[0].output else 0) + HourTotal(ticks[1..], now)
  }

  /** Saturating at every step comes to saturating the whole. */
  lemma {:induction false} AddedSaturates(ticks: seq<Tick>, now: Timestamp, sum: nat)
    requires sum <= U64_MAX && forall i :: 0 <= i < |ticks| ==> ticks[i].at > Cutoff(now)
    ensures var total := sum + HourTotal(ticks, now);
            Added(ticks, now, sum) == if total > U64_MAX then U64_MAX else total
    decreases |ticks|
  {
    if ticks != [] {
      var tokens := SaturatingAdd(ticks[0].input, ticks[0].output);
      AddedSaturates(ticks[1..], now, if ticks[0].at <= now then SaturatingAdd(sum, tokens) else sum);
    }
  }

  lemma {:induction false} OldCountsNothing(ticks: seq<Tick>, n: nat, now: Timestamp)
    requires n <= |ticks| && forall i :: 0 <= i < n ==> ticks[i].at <= Cutoff(now)
    ensures HourTotal(ticks, now) == HourTotal(ticks[n..], now)
  {
    if n > 0 {
      OldCountsNothing(ticks[1..], n - 1, now);
      assert ticks[1..][n - 1..] == ticks[n..];
    }
  }

  /**
   * With times that do not run backwards, a read gives the tokens of the last hour among the newest 8192 ticks
   * of the full log, or the largest number there is.
   */
  lemma ReadsLastHour(events: seq<Event>, now: Timestamp)
    requires InOrder(events + [Read(now)])
    ensures var total := HourTotal(Newest(Log(events)), now);
            && Added(Ring(events + [Read(now)]), now, 0) == (if total > U64_MAX then U64_MAX else total)
            && |Ring(events + [Read(now)])| <= MAX_TICKS
  {
    hide Newer, Expired, Log, Ring, Added, HourTotal, InOrder;
    var all := events + [Read(now)];
    var log := Log(events);
    LogOfRead(events, now);
    LogInOrder(all);
    var low := RingIsRecentLog(all);
    RecentTotal(log, now);
  }

  lemma RecentTotal(log: seq<Tick>, now: Timestamp)
    requires Sorted(log)
    ensures var recent := log[Lost(log, Cutoff(now))..];
            var total := HourTotal(Newest(log), now);
            && Added(recent, now, 0) == (if total > U64_MAX then U64_MAX else total)
            && |recent| <= MAX_TICKS
  {
    hide Newer, Expired, Added, HourTotal;
    ExpiredIsPrefix(log, Cutoff(now));
    var low := Lost(log, Cutoff(now));
    var newest := Newest(log);
    assert newest == log[Over(log)..];
    assert newest[low - Over(log)..] == log[low..];
    OldCountsNothing(newest, low - Over(log), now);
    AddedSaturates(log[low..], now, 0);
  }

  lemma LogOfRead(events: seq<Event>, now: Timestamp)
    ensures Log(events + [Read(now)]) == Log(events)
  {
    assert (events + [Read(now)])[..|events|] == events;
  }

  // ---- Times that run backwards ----

  /** No event after it expires the tick. */
  ghost predicate Outlives(tick: Tick, later: seq<Event>) {
    forall j :: 0 <= j < |later| ==> Cutoff(TimeOf(later[j])) < tick.at
  }

  /** The ticks of the log that no later event expires. */
  ghost function Surviving(events: seq<Event>): seq<Tick> {
    if events == [] then []
    else
      var rest := Surviving(events[1..]);
      match events[0]
      case Record(tick) => if Outlives(tick, events[1..]) then [tick] + rest else rest
      case Read(_) => rest
  }

  /** The tokens of the last hour whose ticks some later event expired. */
  ghost function Missed(events: seq<Event>, now: Timestamp): nat {
    if events == [] then 0
    else
      var rest := Missed(events[1..], now);
      match events[0]
      case Record(tick) => if Outlives(tick, events[1..]) then rest else HourTotal([tick], now) + rest
      case Read(_) => rest
  }

  lemma OutlivesOneMore(tick: Tick, later: seq<Event>, e: Event)
    ensures Outlives(tick, later + [e]) <==> Outlives(tick, later) && Cutoff(TimeOf(e)) < tick.at
  {
    if Outlives(tick, later + [e]) {
      assert (later + [e])[|later|] == e;
      assert forall j :: 0 <= j < |later| ==> later[j] == (later + [e])[j];
    }
  }

  lemma {:induction false} SurvivingAppend(events: seq<Event>, e: Event)
    ensures Surviving(events + [e])
         == Newer(Surviving(events), Cutoff(TimeOf(e))) + (match e case Record(tick) => [tick] case Read(_) => [])
  {
    hide Newer, Outlives;
    var last := match e case Record(tick) => [tick] case Read(_) => [];
    var cutoff := Cutoff(TimeOf(e));
    NothingNewer(cutoff);
    if events == [] {
      assert [] + [e] == [e] && [e][1..] == [] && Surviving([]) == [];
      assert e.Record? ==> Outlives(e.tick, []) by { OutlivesNone(e); }
    } else {
      var rest := events[1..];
      assert (events + [e])[1..] == rest + [e];
      SurvivingAppend(rest, e);
      match events[0] {
        case Record(tick) =>
          OutlivesOneMore(tick, rest, e);
          if Outlives(tick, rest) {
            var kept := [tick] + Surviving(rest);
            assert kept[1..] == Surviving(rest);
            NewerStep(kept, cutoff);
            Assoc([tick], Newer(Surviving(rest), cutoff), last);
          }
        case Read(_) =>
      }
    }
  }

  lemma OutlivesNone(e: Event)
    ensures e.Record? ==> Outlives(e.tick, [])
  {
  }

  lemma {:induction false} NewerIsShorter(ticks: seq<Tick>, cutoff: Timestamp)
    ensures |Newer(ticks, cutoff)| <= |ticks|
  {
    if ticks != [] {
      NewerIsShorter(ticks[1..], cutoff);
    }
  }

  /** Below the cap, the ring holds just the ticks that no later event expired, in any order of times. */
  lemma {:induction false} RingSurvives(events: seq<Event>)
    requires |Log(events)| <= MAX_TICKS
    ensures Ring(events) == Surviving(events) && |Ring(events)| <= |Log(events)|
  {
    hide Newer, Surviving;
    if events == [] {
      assert Surviving([]) == [] by { NoneSurvive(); }
    } else {
      var last := |events| - 1;
      var init := events[..last];
      assert events == init + [events[last]];
      RingSurvives(init);
      SurvivingAppend(init, events[last]);
      NewerIsShorter(Ring(init), Cutoff(TimeOf(events[last])));
    }
  }

  lemma NoneSurvive()
    ensures Surviving([]) == []
  {
  }

  lemma {:induction false} LogFront(e: Event, rest: seq<Event>)
    ensures Log([e] + rest) == (match e case Record(tick) => [tick] case Read(_) => []) + Log(rest)
  {
    var first := match e case Record(tick) => [tick] case Read(_) => [];
    var events := [e] + rest;
    if rest == [] {
      assert events == [e] && [e][..0] == [] && Log([]) == [];
    } else {
      var init := rest[..|rest| - 1];
      assert events[..|events| - 1] == [e] + init;
      LogFront(e, init);
      if rest[|rest| - 1].Record? {
        Assoc(first, Log(init), [rest[|rest| - 1].tick]);
      }
    }
  }

  lemma HourTotalFront(tick: Tick, rest: seq<Tick>, now: Timestamp)
    ensures HourTotal([tick] + rest, now) == HourTotal([tick], now) + HourTotal(rest, now)
  {
    assert ([tick] + rest)[1..] == rest && [tick][1..] == [];
  }

  lemma {:induction false} MissedIsRest(events: seq<Event>, now: Timestamp)
    ensures HourTotal(Surviving(events), now) + Missed(events, now) == HourTotal(Log(events), now)
  {
    hide HourTotal, Outlives, Log;
    if events == [] {
      assert Log([]) == [] by { NoLog(); }
    } else {
      MissedIsRest(events[1..], now);
      assert events == [events[0]] + events[1..];
      LogFront(events[0], events[1..]);
      match events[0] {
        case Record(tick) =>
          HourTotalFront(tick, Log(events[1..]), now);
          HourTotalFront(tick, Surviving(events[1..]), now);
        case Read(_) => assert [] + Log(events[1..]) == Log(events[1..]);
      }
    }
  }

  lemma NoLog()
    ensures Log([]) == []
  {
  }

  function Saturate(n: nat): nat { if n > U64_MAX then U64_MAX else n }

  /**
   * Whatever the order of times, below the cap: a read gives the tokens of the last hour less those whose ticks an
   * event after them had expired, so it is what the full log says exactly when those count for nothing.
   */
  lemma LateReadMisses(events: seq<Event>, now: Timestamp)
    requires |Log(events)| <= MAX_TICKS
    ensures var all := events + [Read(now)];
            var (total, missed) := (HourTotal(Log(events), now), Missed(all, now));
            && missed <= total
            && Added(Ring(all), now, 0) == Saturate(total - missed)
            && (Added(Ring(all), now, 0) == Saturate(total) <==> missed == 0 || total - missed >= U64_MAX)
  {
    hide Newer, HourTotal, Surviving, Missed, Added, Log, Ring;
    var all := events + [Read(now)];
    LogOfRead(events, now);
    RingSurvives(all);
    MissedIsRest(all, now);
    SurvivingAppend(events, Read(now));
    NewerIsNew(Surviving(events), Cutoff(now));
    assert Newer(Surviving(events), Cutoff(now)) + [] == Newer(Surviving(events), Cutoff(now));
    AddedSaturates(Surviving(all), now, 0);
  }

  lemma {:induction false} NewerIsNew(ticks: seq<Tick>, cutoff: Timestamp)
    ensures forall i :: 0 <= i < |Newer(ticks, cutoff)| ==> Newer(ticks, cutoff)[i].at > cutoff
  {
    hide Newer;
    if ticks == [] {
      NothingNewer(cutoff);
    } else {
      NewerStep(ticks, cutoff);
      NewerIsNew(ticks[1..], cutoff);
    }
  }

  /** One such order: a tick dropped by a read is missed by a read from before. */
  lemma EarlierReadMisses(tick: Tick, now: Timestamp)
    requires TIMESTAMP_MIN < tick.at <= now - TOKEN_WINDOW
    ensures var all := [Record(tick), Read(now)] + [Read(tick.at)];
            && Added(Ring(all), tick.at, 0) == 0
            && HourTotal(Log([Record(tick), Read(now)]), tick.at) == Missed(all, tick.at) == tick.input + tick.output
  {
    hide Newer, Added;
    var first, both, all := [Record(tick)], [Record(tick), Read(now)], [Record(tick), Read(now)] + [Read(tick.at)];
    assert both[..1] == first && first[..0] == [];
    assert Log([]) == [] && [] + [tick] == [tick];
    assert Log(first) == [tick] && Log(both) == [tick];
    assert all[1..] == [Read(now), Read(tick.at)] && all[1..][1..] == [Read(tick.at)] && [Read(tick.at)][1..] == [];
    assert Missed([], tick.at) == 0 && Missed([Read(tick.at)], tick.at) == 0 && Missed(all[1..], tick.at) == 0;
    assert !Outlives(tick, all[1..]) by {
      assert all[1..][0] == Read(now);
    }
    assert [tick][1..] == [];
    LateReadMisses(both, tick.at);
  }
}
