/** ipRateLimiter as the object the middleware uses, and what it guarantees over a
    schedule: the rate bound across evictions, and when entries go and stay. */
module Limiter {
  import opened LimiterSpec

  class IpRateLimiter {
    const params: Params
    var entries: Entries

    constructor (params: Params)
      ensures this.params == params && entries == map[]
    {
      this.params := params;
      entries := map[];
    }

    /** `get(ip).Allow()` at time `now`. */
    method Allow(ip: Ip, now: real) returns (ok: bool)
      modifies this`entries
      ensures ok == Answer(params, old(entries), Req(ip, now))
      ensures entries == Step(params, true, old(entries), Req(ip, now))
    {
      if ip !in entries {
        entries := entries[ip := Entry(NewBucket(params, now), now)];
      }
      var lim := entries[ip].lim;
      entries := entries[ip := Entry(lim, now)];
      ok := Allows(params, lim, now);
      if ok {
        entries := entries[ip := Entry(Bucket(Refill(params, lim, now) - 1.0, now), now)];
      }
    }

    /** One tick of the cleanup loop. */
    method Cleanup(now: real)
      modifies this`entries
      ensures entries == Step(params, true, old(entries), Tick(now))
    {
      var cutoff := now - params.ttl;
      var m, keys := entries, entries.Keys;
      while keys != {}
        invariant keys <= m.Keys
        invariant entries == map ip | ip in m && (ip in keys || m[ip].lastSeen >= cutoff) :: m[ip]
        decreases keys
      {
        var ip :| ip in keys;
        keys := keys - {ip};
        if entries[ip].lastSeen < cutoff {
          entries := map i | i in entries && i != ip :: entries[i];
        }
      }
    }
  }

  /** How many of the events are requests of `ip` that were let through, as a real. */
  function Allowed(es: seq<Event>, answers: seq<bool>, ip: Ip): real
    requires |es| == |answers|
    decreases |es|
  {
    if es == [] then 0.0
    else (if es[0].Req? && es[0].ip == ip && answers[0] then 1.0 else 0.0) + Allowed(es[1..], answers[1..], ip)
  }

  /** The tokens `ip` could spend at time `t`. */
  function Level(p: Params, m: Entries, ip: Ip, t: real): real {
    if ip in m then Refill(p, m[ip].lim, t) else p.burst as real
  }

  /** What a bucket below its burst refills from `t` to `u`. */
  function Earned(p: Params, t: real, u: real): real {
    p.r * (u - t)
  }

  lemma LevelLater(p: Params, m: Entries, ip: Ip, t: real, u: real)
    requires p.r >= 0.0 && t <= u
    ensures Level(p, m, ip, u) <= Level(p, m, ip, t) + Earned(p, t, u)
  {
    NonNegative(p.r, u - t);
    if ip in m { RefillLater(p, m[ip].lim, t, u); }
  }

  /** 1.0 if the event is a request of `ip` that is let through. */
  function Passed(p: Params, m: Entries, e: Event, ip: Ip): real {
    if e.Req? && e.ip == ip && Answer(p, m, e) then 1.0 else 0.0
  }

  /** What one event does to the level of `ip`. */
  lemma LevelStep(p: Params, evict: bool, m: Entries, e: Event, ip: Ip)
    requires p.r >= 0.0 && EntriesOk(p, m, e.at) && (evict ==> p.burst as real <= p.r * p.ttl)
    ensures Level(p, Step(p, evict, m, e), ip, e.at) ==
      Level(p, m, ip, e.at) - Passed(p, m, e, ip)
  {
    match e
    case Req(i, at) =>
      assert p.r * (at - at) == 0.0;
      SpendOk(p, BucketFor(p, m, i, at), at);
    case Tick(at) =>
      if evict && ip in m && m[ip].lastSeen < at - p.ttl { IdleIsFull(p, m[ip], at); }
  }

  predicate Within(es: seq<Event>, end: real)
    decreases |es|
  {
    es == [] || (es[0].at <= end && Within(es[1..], end))
  }

  /** Sum of what refills between one event and the next. */
  function Gained(p: Params, es: seq<Event>, t: real): real
    decreases |es|
  {
    if es == [] then 0.0 else Earned(p, t, es[0].at) + Gained(p, es[1..], es[0].at)
  }

  lemma {:induction false} GainedBound(p: Params, es: seq<Event>, t: real, end: real)
    requires p.r >= 0.0 && Ordered(es, t) && t <= end && Within(es, end)
    ensures Gained(p, es, t) <= p.r * (end - t)
    decreases |es|
  {
    if es == [] {
      NonNegative(p.r, end - t);
    } else {
      GainedBound(p, es[1..], es[0].at, end);
      Distribute(p.r, es[0].at - t, end - es[0].at);
      assert (es[0].at - t) + (end - es[0].at) == end - t;
    }
  }

  /** What is let through was there at the start or was refilled since. */
  lemma {:induction false} SpentWasGained(p: Params, evict: bool, m: Entries, es: seq<Event>, ip: Ip, t: real)
    requires p.r >= 0.0 && p.burst >= 0 && (evict ==> p.burst as real <= p.r * p.ttl)
    requires EntriesOk(p, m, t) && Ordered(es, t)
    ensures |Answers(p, evict, m, es)| == |es|
    ensures Allowed(es, Answers(p, evict, m, es), ip) <= Level(p, m, ip, t) + Gained(p, es, t)
    decreases |es|
  {
    AnswersLength(p, evict, m, es);
    if es == [] {
      LevelPositive(p, m, ip, t);
    } else {
      OkLater(p, m, t, es[0].at);
      StepOk(p, evict, m, es[0]);
      SpentWasGained(p, evict, Step(p, evict, m, es[0]), es[1..], ip, es[0].at);
      SpentStep(p, evict, m, es, ip, t);
    }
  }

  lemma SpentStep(p: Params, evict: bool, m: Entries, es: seq<Event>, ip: Ip, t: real)
    requires p.r >= 0.0 && (evict ==> p.burst as real <= p.r * p.ttl)
    requires es != [] && EntriesOk(p, m, es[0].at) && t <= es[0].at
    requires |Answers(p, evict, m, es)| == |es|
    requires var next := Step(p, evict, m, es[0]); var rest := Answers(p, evict, next, es[1..]);
      |rest| == |es[1..]| && Allowed(es[1..], rest, ip) <= Level(p, next, ip, es[0].at) + Gained(p, es[1..], es[0].at)
    ensures Allowed(es, Answers(p, evict, m, es), ip) <= Level(p, m, ip, t) + Gained(p, es, t)
  {
    var passed, gain := StepFacts(p, evict, m, es, ip, t);
  }

  lemma StepFacts(p: Params, evict: bool, m: Entries, es: seq<Event>, ip: Ip, t: real)
    returns (passed: real, gain: real)
    requires p.r >= 0.0 && (evict ==> p.burst as real <= p.r * p.ttl)
    requires es != [] && EntriesOk(p, m, es[0].at) && t <= es[0].at
    requires |Answers(p, evict, m, es)| == |es|
    ensures var rest := Answers(p, evict, Step(p, evict, m, es[0]), es[1..]);
      |rest| == |es[1..]| && Allowed(es, Answers(p, evict, m, es), ip) == passed + Allowed(es[1..], rest, ip)
    ensures Gained(p, es, t) == gain + Gained(p, es[1..], es[0].at)
    ensures Level(p, Step(p, evict, m, es[0]), ip, es[0].at) + passed <= Level(p, m, ip, t) + gain
  {
    passed, gain := Passed(p, m, es[0], ip), Earned(p, t, es[0].at);
    AllowedStep(p, evict, m, es, ip);
    LevelStep(p, evict, m, es[0], ip);
    LevelLater(p, m, ip, t, es[0].at);
    Chain(Level(p, Step(p, evict, m, es[0]), ip, es[0].at), passed, Level(p, m, ip, es[0].at), Level(p, m, ip, t),
          gain);
  }

  lemma AllowedStep(p: Params, evict: bool, m: Entries, es: seq<Event>, ip: Ip)
    requires es != [] && |Answers(p, evict, m, es)| == |es|
    ensures var rest := Answers(p, evict, Step(p, evict, m, es[0]), es[1..]);
      && |rest| == |es[1..]|
      && Allowed(es, Answers(p, evict, m, es), ip) == Passed(p, m, es[0], ip) + Allowed(es[1..], rest, ip)
  {
    assert Answers(p, evict, m, es)[1..] == Answers(p, evict, Step(p, evict, m, es[0]), es[1..]);
  }

  lemma Chain(next: real, passed: real, later: real, level: real, gain: real)
    requires next == later - passed && later <= level + gain
    ensures next + passed <= level + gain
  {}

  lemma LevelPositive(p: Params, m: Entries, ip: Ip, t: real)
    requires p.r >= 0.0 && p.burst >= 0 && EntriesOk(p, m, t)
    ensures Level(p, m, ip, t) >= 0.0
  {
    if ip in m { RefillPositive(p, m[ip].lim, t); }
  }

  lemma RefillPositive(p: Params, b: Bucket, t: real)
    requires p.r >= 0.0 && p.burst >= 0 && BucketOk(p, b, t)
    ensures Refill(p, b, t) >= 0.0
  {
    NonNegative(p.r, t - b.last);
  }

  lemma {:induction false} RunOk(p: Params, evict: bool, m: Entries, es: seq<Event>, t: real, end: real)
    requires p.r >= 0.0 && EntriesOk(p, m, t) && Ordered(es, t) && t <= end && Within(es, end)
    ensures EntriesOk(p, After(p, evict, m, es), end)
    decreases |es|
  {
    if es == [] {
      OkLater(p, m, t, end);
    } else {
      OkLater(p, m, t, es[0].at);
      StepOk(p, evict, m, es[0]);
      RunOk(p, evict, Step(p, evict, m, es[0]), es[1..], es[0].at, end);
    }
  }

  /** Main result: in any window of any schedule, whatever was evicted before or
      inside it, one address gets at most burst + rate * width requests through: as many
      as there are upload slots, and half as many, or one, for every second. */
  lemma RateBound(maxParallelUploads: nat, before: seq<Event>, window: seq<Event>, ip: Ip, now: real, start: real,
                  end: real)
    requires Ordered(before, now) && now <= start <= end && Ordered(window, start)
    requires Within(before, start) && Within(window, end)
    ensures var p := ComputeParams(maxParallelUploads);
      var answers := Answers(p, true, map[], before + window);
      && |answers| == |before| + |window|
      && p.burst == maxParallelUploads
      && p.r == (if maxParallelUploads <= 2 then 1.0 else maxParallelUploads as real / 2.0)
      && Allowed(window, answers[|before|..], ip) <= p.burst as real + p.r * (end - start)
  {
    BoundFor(ComputeParams(maxParallelUploads), before, window, ip, now, start, end);
  }

  lemma BoundFor(p: Params, before: seq<Event>, window: seq<Event>, ip: Ip, now: real, start: real, end: real)
    requires p.r >= 0.0 && p.burst >= 0 && p.burst as real <= p.r * p.ttl
    requires Ordered(before, now) && now <= start <= end && Ordered(window, start)
    requires Within(before, start) && Within(window, end)
    ensures var answers := Answers(p, true, map[], before + window);
      && |answers| == |before| + |window|
      && Allowed(window, answers[|before|..], ip) <= p.burst as real + p.r * (end - start)
  {
    var m := After(p, true, map[], before);
    RunOk(p, true, map[], before, now, start);
    TailAnswers(p, before, window);
    SpentWasGained(p, true, m, window, ip, start);
    GainedBound(p, window, start, end);
    LevelAtMost(p, m, ip, start);
  }

  lemma LevelAtMost(p: Params, m: Entries, ip: Ip, t: real)
    ensures Level(p, m, ip, t) <= p.burst as real
  {}

  lemma TailAnswers(p: Params, before: seq<Event>, window: seq<Event>)
    ensures var answers := Answers(p, true, map[], before + window);
      && |answers| == |before| + |window|
      && answers[|before|..] == Answers(p, true, After(p, true, map[], before), window)
  {
    AnswersAppend(p, true, map[], before, window);
    AnswersLength(p, true, map[], before);
    AnswersLength(p, true, After(p, true, map[], before), window);
  }

  ghost predicate Idle(es: seq<Event>, ip: Ip) {
    forall i :: 0 <= i < |es| ==> !(es[i].Req? && es[i].ip == ip)
  }

  predicate TooLate(e: Event, seen: real, ttl: real) {
    e.Tick? && e.at > seen + ttl
  }

  /** Main result: while an address sends nothing its entry stays as it is exactly
      until a tick comes more than ttl after its last request; then it is gone. */
  lemma {:induction false} IdleEntry(p: Params, m: Entries, es: seq<Event>, ip: Ip)
    requires ip in m && Idle(es, ip)
    ensures var k := After(p, true, m, es);
      if exists i :: 0 <= i < |es| && TooLate(es[i], m[ip].lastSeen, p.ttl) then ip !in k
      else ip in k && k[ip] == m[ip]
    decreases |es|
  {
    if es != [] {
      var next := Step(p, true, m, es[0]);
      assert forall i :: 1 <= i < |es| ==> es[i] == es[1..][i - 1];
      if TooLate(es[0], m[ip].lastSeen, p.ttl) {
        StaysAway(p, next, es[1..], ip);
      } else {
        IdleEntry(p, next, es[1..], ip);
      }
    }
  }

  lemma {:induction false} StaysAway(p: Params, m: Entries, es: seq<Event>, ip: Ip)
    requires ip !in m && Idle(es, ip)
    ensures ip !in After(p, true, m, es)
    decreases |es|
  {
    if es != [] { StaysAway(p, Step(p, true, m, es[0]), es[1..], ip); }
  }

  /** When a ticker started at time 0 fires for the k-th time. */
  function Firing(ttl: real, k: int): real {
    (ttl / 2.0) * k as real
  }

  lemma Between(h: real, x: real, y: real)
    requires h > 0.0 && x < y <= x + 1.0
    ensures h * x < h * y <= h * x + h
  {
    Distribute(h, x, y - x);
    assert x + (y - x) == y;
    Scaled(h, y, x + 1.0);
    Distribute(h, x, 1.0);
    assert h * (y - x) > 0.0;
  }

  /** `k` is the first firing more than ttl after `seen`. */
  lemma TickDue(seen: real, ttl: real) returns (k: int)
    requires ttl > 0.0
    ensures seen + ttl < Firing(ttl, k) <= seen + 1.5 * ttl
  {
    var h := ttl / 2.0;
    var x := (seen + ttl) / h;
    k := x.Floor + 1;
    assert h * x == seen + ttl;
    Between(h, x, k as real);
  }

  /** The schedule holds every firing of the ticker from `start` to `end`. */
  ghost predicate Ticking(es: seq<Event>, ttl: real, start: real, end: real) {
    forall k :: start <= Firing(ttl, k) <= end ==> Tick(Firing(ttl, k)) in es
  }

  /** Main result: an entry nobody uses is gone by 1.5 ttl after its last request. */
  lemma IdleGone(p: Params, m: Entries, es: seq<Event>, ip: Ip, end: real)
    requires p.ttl > 0.0 && ip in m && Idle(es, ip)
    requires Ticking(es, p.ttl, m[ip].lastSeen, end) && end >= m[ip].lastSeen + 1.5 * p.ttl
    ensures ip !in After(p, true, m, es)
  {
    var k := TickDue(m[ip].lastSeen, p.ttl);
    assert Tick(Firing(p.ttl, k)) in es;
    IdleEntry(p, m, es, ip);
  }

  /** `ip`, last seen at `seen`, never lets more than ttl pass between requests. */
  predicate Busy(es: seq<Event>, ip: Ip, seen: real, ttl: real)
    decreases |es|
  {
    es == [] || (es[0].at <= seen + ttl
                 && Busy(es[1..], ip, if es[0].Req? && es[0].ip == ip then es[0].at else seen, ttl))
  }

  /** Main result: an entry used at gaps of at most ttl is never evicted. */
  lemma {:induction false} BusyStays(p: Params, m: Entries, es: seq<Event>, ip: Ip)
    requires ip in m && Busy(es, ip, m[ip].lastSeen, p.ttl)
    ensures ip in After(p, true, m, es)
    decreases |es|
  {
    if es != [] { BusyStays(p, Step(p, true, m, es[0]), es[1..], ip); }
  }
}
