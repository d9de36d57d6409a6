/**
 * Gauges of requests in flight and the maps of counters, `crates/libsubby/src/proxy/metrics.rs:30-258`: each gauge
 * counts the guards still held on its counters, whatever is forgotten meanwhile.
 */
module Metrics {
  import opened Prelude
  import opened Balance
  import opened TokenRing

  const U32_MAX: nat := 0xFFFF_FFFF

  type U32 = n: nat | n <= U32_MAX

  type U64 = n: nat | n <= U64_MAX

  /** The totals wrap. */
  function Next(total: U64): U64 { if total == U64_MAX then 0 else total + 1 }

  /** One population's counters. */
  class Counters {
    var inFlight: U32
    var requestsTotal: U64
    var lastProxiedAt: Option<Timestamp>
    const ring: TickRing

    constructor ()
      ensures inFlight == 0 && requestsTotal == 0 && lastProxiedAt == None
      ensures fresh(ring) && ring.ticks == []
    {
      inFlight, requestsTotal, lastProxiedAt := 0, 0, None;
      ring := new TickRing();
    }

    /** One request more; the atomics wrap. */
    method Open(now: Timestamp)
      modifies this
      ensures inFlight == if old(inFlight) == U32_MAX then 0 else old(inFlight) + 1
      ensures requestsTotal == Next(old(requestsTotal))
      ensures lastProxiedAt == Some(now)
    {
      inFlight := if inFlight == U32_MAX then 0 else inFlight + 1;
      requestsTotal := Next(requestsTotal);
      lastProxiedAt := Some(now);
    }

    /** One request less, never below zero. */
    method Close()
      modifies this`inFlight
      ensures inFlight == if old(inFlight) == 0 then 0 else old(inFlight) - 1
    {
      inFlight := if inFlight == 0 then 0 else inFlight - 1;
    }
  }

  /** Held for a whole request: its sub's counters and, on a pool's endpoint, the pool's. */
  class InFlightGuard {
    const sub: Counters
    const pool: Option<Counters>

    constructor (sub: Counters, pool: Option<Counters>)
      ensures this.sub == sub && this.pool == pool
    {
      this.sub, this.pool := sub, pool;
    }

    predicate Counts(c: Counters) { c == sub || pool == Some(c) }
  }

  ghost function On(guards: set<InFlightGuard>, c: Counters): set<InFlightGuard> { set g | g in guards && g.Counts(c) }

  /** How many of these guards were opened on these counters. */
  ghost function Held(guards: set<InFlightGuard>, c: Counters): nat { |On(guards, c)| }

  lemma HeldMore(guards: set<InFlightGuard>, g: InFlightGuard, c: Counters)
    requires g !in guards
    ensures Held(guards + {g}, c) == Held(guards, c) + if g.Counts(c) then 1 else 0
  {
    if g.Counts(c) {
      assert On(guards + {g}, c) == On(guards, c) + {g};
    } else {
      assert On(guards + {g}, c) == On(guards, c);
    }
  }

  lemma HeldLess(guards: set<InFlightGuard>, g: InFlightGuard, c: Counters)
    requires g in guards
    ensures Held(guards, c) == Held(guards - {g}, c) + if g.Counts(c) then 1 else 0
  {
    assert guards - {g} + {g} == guards;
    HeldMore(guards - {g}, g, c);
  }

  lemma HeldNone(guards: set<InFlightGuard>, c: Counters)
    requires forall g :: g in guards ==> !g.Counts(c)
    ensures Held(guards, c) == 0
  {
    assert On(guards, c) == {};
  }

  function Saturated(n: nat): nat { if n > U32_MAX then U32_MAX else n }

  /** The guards whose request went to one of these subs, on its present counters. */
  ghost function OnAny(guards: set<InFlightGuard>, subs: map<SubId, Counters>, keys: set<SubId>): set<InFlightGuard>
    requires keys <= subs.Keys
  {
    set g | g in guards && exists key :: key in keys && g.sub == subs[key]
  }

  class Metrics {
    var subs: map<SubId, Counters>
    var pools: map<string, Counters>

    /** Every counters object ever made for a sub, and for a pool; those forgotten may still be held. */
    ghost var subsMade: set<Counters>
    ghost var poolsMade: set<Counters>
    ghost var guards: set<InFlightGuard>

    /** No counters object was ever held by more guards than its gauge can count. */
    ghost var counted: bool

    ghost predicate Valid()
      reads this, subsMade, poolsMade
    {
      && subsMade !! poolsMade
      && (forall sub :: sub in subs ==> subs[sub] in subsMade)
      && (forall pool :: pool in pools ==> pools[pool] in poolsMade)
      && (forall a, b :: a in subs && b in subs && a != b ==> subs[a] != subs[b])
      && (forall c, d :: c in subsMade + poolsMade && d in subsMade + poolsMade && c != d ==> c.ring != d.ring)
      && (forall g :: g in guards ==> g.sub in subsMade && (g.pool.Some? ==> g.pool.value in poolsMade))
      && (counted ==> forall c :: c in subsMade + poolsMade ==> c.inFlight == Held(guards, c) <= U32_MAX)
    }

    constructor ()
      ensures Valid() && counted && subs == map[] && pools == map[] && guards == {} && subsMade == {} && poolsMade == {}
    {
      subs, pools := map[], map[];
      subsMade, poolsMade, guards, counted := {}, {}, {}, true;
    }

    method Entry(sub: SubId) returns (c: Counters)
      requires Valid()
      modifies this`subs, this`subsMade
      ensures Valid() && sub in subs && c == subs[sub] && subs == old(subs)[sub := c]
      ensures subsMade == old(subsMade) + {c}
      ensures if sub in old(subs) then c == old(subs)[sub]
              else fresh(c) && fresh(c.ring) && c.ring.ticks == [] && c.requestsTotal == 0
    {
      if sub in subs {
        return subs[sub];
      }
      c := new Counters();
      HeldNone(guards, c);
      subs := subs[sub := c];
      subsMade := subsMade + {c};
    }

    method PoolEntry(pool: string) returns (c: Counters)
      requires Valid()
      modifies this`pools, this`poolsMade
      ensures Valid() && pool in pools && c == pools[pool] && pools == old(pools)[pool := c]
      ensures poolsMade == old(poolsMade) + {c}
      ensures if pool in old(pools) then c == old(pools)[pool]
              else fresh(c) && fresh(c.ring) && c.ring.ticks == [] && c.requestsTotal == 0
    {
      if pool in pools {
        return pools[pool];
      }
      c := new Counters();
      HeldNone(guards, c);
      pools := pools[pool := c];
      poolsMade := poolsMade + {c};
    }

    /** Start counting one request against its sub and, on a pool's endpoint, the pool. */
    method InFlight(sub: SubId, pool: Option<string>, now: Timestamp) returns (guard: InFlightGuard)
      requires Valid()
      modifies this, subsMade, poolsMade
      ensures Valid() && fresh(guard) && guards == old(guards) + {guard}
      ensures sub in subs && guard.sub == subs[sub]
      ensures pool.Some? <==> guard.pool.Some?
      ensures pool.Some? ==> pool.value in pools && guard.pool == Some(pools[pool.value])
      ensures guard.sub.lastProxiedAt == Some(now) && (pool.Some? ==> guard.pool.value.lastProxiedAt == Some(now))
      ensures guard.sub.requestsTotal == Next(if sub in old(subs) then old(subs[sub].requestsTotal) else 0)
      ensures pool.Some? ==>
                guard.pool.value.requestsTotal
                == Next(if pool.value in old(pools) then old(pools[pool.value].requestsTotal) else 0)
      ensures forall c :: c in old(subsMade + poolsMade) && !guard.Counts(c) ==> unchanged(c)
      ensures counted <==> old(counted) && forall c :: c in subsMade + poolsMade ==> Held(guards, c) <= U32_MAX
    {
      var s := Entry(sub);
      var p: Option<Counters> := None;
      if pool.Some? {
        var c := PoolEntry(pool.value);
        p := Some(c);
      }
      guard := OpenOn(s, p, now);
    }

    method OpenOn(s: Counters, p: Option<Counters>, now: Timestamp) returns (guard: InFlightGuard)
      requires Valid() && s in subsMade && (p.Some? ==> p.value in poolsMade)
      modifies this`guards, this`counted, s, set c | p == Some(c)
      ensures Valid() && fresh(guard) && guards == old(guards) + {guard} && guard.sub == s && guard.pool == p
      ensures s.lastProxiedAt == Some(now) && s.requestsTotal == Next(old(s.requestsTotal))
      ensures p.Some? ==>
                p.value.lastProxiedAt == Some(now) && p.value.requestsTotal == Next(old(p.value.requestsTotal))
      ensures counted <==> old(counted) && forall c :: c in subsMade + poolsMade ==> Held(guards, c) <= U32_MAX
    {
      hide Held;
      guard := new InFlightGuard(s, p);
      forall c | c in subsMade + poolsMade
        ensures Held(guards + {guard}, c) == Held(guards, c) + if guard.Counts(c) then 1 else 0
      {
        HeldMore(guards, guard, c);
      }
      s.Open(now);
      if p.Some? {
        p.value.Open(now);
      }
      guards := guards + {guard};
      counted := counted && forall c :: c in subsMade + poolsMade ==> Held(guards, c) <= U32_MAX;
    }

    /** Dropping a guard; the saturating decrement never meets a zero. */
    method Drop(guard: InFlightGuard)
      requires Valid() && guard in guards
      modifies this`guards, guard.sub, set c | guard.pool == Some(c)
      ensures Valid() && guards == old(guards) - {guard}
      ensures counted ==>
                forall c :: c in subsMade + poolsMade && guard.Counts(c) ==>
                  old(c.inFlight) > 0 && c.inFlight == old(c.inFlight) - 1
    {
      forall c | c in subsMade + poolsMade
        ensures Held(guards, c) == Held(guards - {guard}, c) + if guard.Counts(c) then 1 else 0
      {
        HeldLess(guards, guard, c);
      }
      guard.sub.Close();
      if guard.pool.Some? {
        guard.pool.value.Close();
      }
      guards := guards - {guard};
    }

    /** Drop everything remembered about a sub; guards still held keep its old counters. */
    method Forget(sub: SubId)
      requires Valid()
      modifies this`subs
      ensures Valid() && subs == old(subs) - {sub}
    {
      subs := subs - {sub};
    }

    /** A sub's gauge is the number of guards opened on its present counters and still held. */
    method ProxiedInFlight(sub: SubId) returns (n: nat)
      requires Valid()
      ensures sub !in subs ==> n == 0
      ensures sub in subs && counted ==> n == Held(guards, subs[sub])
    {
      n := if sub in subs then subs[sub].inFlight else 0;
    }

    /** The requests in flight on the subs present, each counted once, up to the largest number there is. */
    method TotalProxiedInFlight() returns (total: nat)
      requires Valid() && counted
      ensures total == Saturated(|OnAny(guards, subs, subs.Keys)|)
    {
      hide Valid, OnAny;
      var keys := subs.Keys;
      ghost var done := {};
      total := 0;
      OnNone();
      while keys != {}
        invariant keys !! done && keys + done == subs.Keys
        invariant total == Saturated(|OnAny(guards, subs, done)|)
        decreases |keys|
      {
        var key :| key in keys;
        OnOneMore(key, done);
        var sum := total + subs[key].inFlight;
        total := if sum > U32_MAX then U32_MAX else sum;
        keys, done := keys - {key}, done + {key};
      }
      assert done == subs.Keys;
    }

    lemma OnNone()
      ensures OnAny(guards, subs, {}) == {}
    {
    }

    lemma OnOneMore(key: SubId, done: set<SubId>)
      requires Valid() && counted && key in subs && key !in done && done <= subs.Keys
      ensures |OnAny(guards, subs, done + {key})| == |OnAny(guards, subs, done)| + subs[key].inFlight
    {
      var before, more := OnAny(guards, subs, done), On(guards, subs[key]);
      assert before !! more;
      assert OnAny(guards, subs, done + {key}) == before + more;
    }

    /** The tick goes where the request itself was counted. */
    method RecordTokens(sub: SubId, pool: Option<string>, tick: Tick)
      requires Valid()
      modifies this`subs, this`subsMade, this`pools, this`poolsMade, set c | c in subsMade + poolsMade :: c.ring
      ensures Valid() && sub in subs && (pool.Some? ==> pool.value in pools)
      ensures subs[sub].ring.ticks == Recorded(if sub in old(subs) then old(subs[sub].ring.ticks) else [], tick)
      ensures pool.Some? ==>
                pools[pool.value].ring.ticks
                == Recorded(if pool.value in old(pools) then old(pools[pool.value].ring.ticks) else [], tick)
      ensures forall c :: c in old(subsMade + poolsMade) && c != subs[sub] ==>
                (pool.Some? ==> c != pools[pool.value]) ==> unchanged(c.ring)
    {
      hide Recorded, Held;
      var s := Entry(sub);
      s.ring.Record(tick);
      if pool.Some? {
        var p := PoolEntry(pool.value);
        p.ring.Record(tick);
      }
    }

    method ProxiedTokens1h(sub: SubId, now: Timestamp) returns (n: nat)
      requires Valid()
      modifies if sub in subs then {subs[sub].ring} else {}
      ensures Valid()
      ensures sub !in subs ==> n == 0
      ensures sub in subs ==>
                && subs[sub].ring.ticks == Newer(old(subs[sub].ring.ticks), Cutoff(now))
                && n == Added(subs[sub].ring.ticks, now, 0)
    {
      if sub !in subs {
        return 0;
      }
      n := subs[sub].ring.TokensSince(Cutoff(now), now);
    }
  }
}
