/** Per-IP token buckets with eviction, as functions on the map of entries, and the
    proof that eviction cannot be observed exactly when a bucket refills within the
    idle time. Times are in seconds. */
module LimiterSpec {

  type Ip = string

  /** rate.Limiter: what was left when it last let a request through. */
  datatype Bucket = Bucket(tokens: real, last: real)
  datatype Entry = Entry(lim: Bucket, lastSeen: real)
  datatype Params = Params(r: real, burst: int, ttl: real)
  datatype Event = Req(ip: Ip, at: real) | Tick(at: real)

  type Entries = map<Ip, Entry>

  function Min(a: real, b: real): real { if a <= b then a else b }

  function Refill(p: Params, b: Bucket, now: real): real {
    Min(p.burst as real, b.tokens + p.r * (now - b.last))
  }

  function NewBucket(p: Params, now: real): Bucket {
    Bucket(p.burst as real, now)
  }

  predicate Allows(p: Params, b: Bucket, now: real) {
    Refill(p, b, now) >= 1.0
  }

  /** Allow: take a token, or change nothing. */
  function Spend(p: Params, b: Bucket, now: real): Bucket {
    if Allows(p, b, now) then Bucket(Refill(p, b, now) - 1.0, now) else b
  }

  /** The bucket `get` finds or makes. */
  function BucketFor(p: Params, m: Entries, ip: Ip, now: real): Bucket {
    if ip in m then m[ip].lim else NewBucket(p, now)
  }

  /** get, then Allow. */
  function Request(p: Params, m: Entries, ip: Ip, now: real): Entries {
    m[ip := Entry(Spend(p, BucketFor(p, m, ip, now), now), now)]
  }

  /** One pass of the cleanup loop. */
  function Evict(p: Params, m: Entries, now: real): Entries {
    map ip | ip in m && m[ip].lastSeen >= now - p.ttl :: m[ip]
  }

  /** The entries after an event; without eviction a tick does nothing. */
  function Step(p: Params, evict: bool, m: Entries, e: Event): Entries {
    match e
    case Req(ip, at) => Request(p, m, ip, at)
    case Tick(at) => if evict then Evict(p, m, at) else m
  }

  /** The answer to an event; a tick has none. */
  predicate Answer(p: Params, m: Entries, e: Event) {
    e.Req? && Allows(p, BucketFor(p, m, e.ip, e.at), e.at)
  }

  function After(p: Params, evict: bool, m: Entries, es: seq<Event>): Entries
    decreases |es|
  {
    if es == [] then m else After(p, evict, Step(p, evict, m, es[0]), es[1..])
  }

  function Answers(p: Params, evict: bool, m: Entries, es: seq<Event>): seq<bool>
    decreases |es|
  {
    if es == [] then [] else [Answer(p, m, es[0])] + Answers(p, evict, Step(p, evict, m, es[0]), es[1..])
  }

  /** Event times do not go back, from `now` on. */
  predicate Ordered(es: seq<Event>, now: real)
    decreases |es|
  {
    es == [] || (now <= es[0].at && Ordered(es[1..], es[0].at))
  }

  /** Buckets as runs leave them: never above burst, never in debt. */
  ghost predicate BucketOk(p: Params, b: Bucket, now: real) {
    b.last <= now && b.tokens <= p.burst as real && (b.tokens >= 0.0 || b.tokens == p.burst as real)
  }

  ghost predicate EntriesOk(p: Params, m: Entries, now: real) {
    forall ip :: ip in m ==> BucketOk(p, m[ip].lim, now) && m[ip].lim.last <= m[ip].lastSeen <= now
  }

  lemma Distribute(r: real, a: real, b: real)
    ensures r * (a + b) == r * a + r * b
  {}

  lemma Scaled(r: real, a: real, b: real)
    requires r >= 0.0 && a <= b
    ensures r * a <= r * b
  {
    Distribute(r, a, b - a);
    NonNegative(r, b - a);
    assert a + (b - a) == b;
  }

  lemma NonNegative(r: real, x: real)
    requires r >= 0.0 && x >= 0.0
    ensures r * x >= 0.0
  {}

  lemma RefillLater(p: Params, b: Bucket, t: real, u: real)
    requires p.r >= 0.0 && t <= u
    ensures Refill(p, b, u) == Min(p.burst as real, Refill(p, b, t) + p.r * (u - t))
  {
    Distribute(p.r, t - b.last, u - t);
    assert (t - b.last) + (u - t) == u - b.last;
    NonNegative(p.r, u - t);
  }

  lemma SpendOk(p: Params, b: Bucket, now: real)
    requires p.r >= 0.0 && BucketOk(p, b, now)
    ensures BucketOk(p, Spend(p, b, now), now)
    ensures Refill(p, Spend(p, b, now), now) == if Allows(p, b, now) then Refill(p, b, now) - 1.0 else Refill(p, b, now)
  {
    assert p.r * (now - now) == 0.0;
  }

  /** `e`, which evicts, and `f`, which does not, will answer alike from `now` on. */
  ghost predicate Alike(p: Params, e: Entries, f: Entries, now: real) {
    && (forall ip :: ip in e ==>
         ip in f && e[ip].lastSeen == f[ip].lastSeen && Refill(p, e[ip].lim, now) == Refill(p, f[ip].lim, now))
    && (forall ip :: ip in f && ip !in e ==> Refill(p, f[ip].lim, now) == p.burst as real)
  }

  lemma AlikeLater(p: Params, e: Entries, f: Entries, t: real, u: real)
    requires p.r >= 0.0 && t <= u && Alike(p, e, f, t)
    ensures Alike(p, e, f, u)
  {
    assert p.r * (u - t) >= 0.0;
    forall ip | ip in f ensures ip in e ==> Refill(p, e[ip].lim, u) == Refill(p, f[ip].lim, u)
      ensures ip !in e ==> Refill(p, f[ip].lim, u) == p.burst as real
    {
      RefillLater(p, f[ip].lim, t, u);
      if ip in e { RefillLater(p, e[ip].lim, t, u); }
    }
  }

  /** An entry idle for longer than ttl has a full bucket. */
  lemma IdleIsFull(p: Params, x: Entry, now: real)
    requires p.r >= 0.0 && p.burst as real <= p.r * p.ttl
    requires BucketOk(p, x.lim, now) && x.lim.last <= x.lastSeen && x.lastSeen < now - p.ttl
    ensures Refill(p, x.lim, now) == p.burst as real
  {
    Scaled(p.r, p.ttl, now - x.lim.last);
    assert p.r * (now - x.lim.last) >= p.burst as real;
    if p.burst < 0 { Scaled(p.r, 0.0, now - x.lim.last); }
  }

  lemma EvictAlike(p: Params, e: Entries, f: Entries, now: real)
    requires p.r >= 0.0 && p.burst as real <= p.r * p.ttl
    requires EntriesOk(p, e, now) && EntriesOk(p, f, now) && Alike(p, e, f, now)
    ensures Alike(p, Evict(p, e, now), f, now)
  {
    forall ip | ip in f && ip !in Evict(p, e, now) ensures Refill(p, f[ip].lim, now) == p.burst as real {
      if ip in e { IdleIsFull(p, e[ip], now); }
    }
  }

  lemma RequestAlike(p: Params, e: Entries, f: Entries, ip: Ip, now: real)
    requires p.r >= 0.0 && EntriesOk(p, e, now) && EntriesOk(p, f, now) && Alike(p, e, f, now)
    ensures Allows(p, BucketFor(p, e, ip, now), now) == Allows(p, BucketFor(p, f, ip, now), now)
    ensures Alike(p, Request(p, e, ip, now), Request(p, f, ip, now), now)
  {
    var b, c := BucketFor(p, e, ip, now), BucketFor(p, f, ip, now);
    assert p.r * (now - now) == 0.0;
    assert Refill(p, b, now) == Refill(p, c, now);
    SpendOk(p, b, now);
    SpendOk(p, c, now);
  }

  lemma OkLater(p: Params, m: Entries, t: real, u: real)
    requires t <= u && EntriesOk(p, m, t)
    ensures EntriesOk(p, m, u)
  {}

  lemma StepOk(p: Params, evict: bool, m: Entries, e: Event)
    requires p.r >= 0.0 && EntriesOk(p, m, e.at)
    ensures EntriesOk(p, Step(p, evict, m, e), e.at)
  {
    if e.Req? { SpendOk(p, BucketFor(p, m, e.ip, e.at), e.at); }
  }

  lemma {:induction false} SameAnswers(p: Params, e: Entries, f: Entries, es: seq<Event>, now: real)
    requires p.r >= 0.0 && p.burst as real <= p.r * p.ttl && Ordered(es, now)
    requires EntriesOk(p, e, now) && EntriesOk(p, f, now) && Alike(p, e, f, now)
    ensures Answers(p, true, e, es) == Answers(p, false, f, es)
    decreases |es|
  {
    if es != [] {
      var x := es[0];
      OkLater(p, e, now, x.at);
      OkLater(p, f, now, x.at);
      AlikeLater(p, e, f, now, x.at);
      StepOk(p, true, e, x);
      StepOk(p, false, f, x);
      match x {
        case Req(ip, at) => RequestAlike(p, e, f, ip, at);
        case Tick(at) => EvictAlike(p, e, f, at);
      }
      SameAnswers(p, Step(p, true, e, x), Step(p, false, f, x), es[1..], x.at);
    }
  }

  /** computeLimiterParams, with the idle time `run` passes to newIPRateLimiter. */
  function ComputeParams(maxParallelUploads: int): Params {
    var half := maxParallelUploads as real / 2.0;
    Params(if half < 1.0 then 1.0 else half, maxParallelUploads, 300.0)
  }

  /** Main result: with the server's own parameters, for every upload limit and every
      schedule of requests and cleanup ticks, evicting idle entries changes no answer. */
  lemma EvictionUnobservable(maxParallelUploads: int, es: seq<Event>, now: real)
    requires Ordered(es, now)
    ensures var p := ComputeParams(maxParallelUploads);
      p.burst as real <= p.r * 2.0 && p.ttl == 300.0 && Answers(p, true, map[], es) == Answers(p, false, map[], es)
  {
    SameAnswers(ComputeParams(maxParallelUploads), map[], map[], es, now);
  }

  // Why the parameters matter.

  function Repeat(e: Event, n: nat): seq<Event> {
    if n == 0 then [] else Repeat(e, n - 1) + [e]
  }

  lemma {:induction false} AfterAppend(p: Params, evict: bool, m: Entries, a: seq<Event>, b: seq<Event>)
    ensures After(p, evict, m, a + b) == After(p, evict, After(p, evict, m, a), b)
    decreases |a|
  {
    if a == [] {
      assert a + b == b;
    } else {
      AfterAppend(p, evict, Step(p, evict, m, a[0]), a[1..], b);
      assert (a + b)[1..] == a[1..] + b;
    }
  }

  lemma {:induction false} AnswersAppend(p: Params, evict: bool, m: Entries, a: seq<Event>, b: seq<Event>)
    ensures Answers(p, evict, m, a + b) == Answers(p, evict, m, a) + Answers(p, evict, After(p, evict, m, a), b)
    decreases |a|
  {
    if a == [] {
      assert a + b == b;
    } else {
      AnswersAppend(p, evict, Step(p, evict, m, a[0]), a[1..], b);
      assert (a + b)[1..] == a[1..] + b;
    }
  }

  lemma {:induction false} OrderedAppend(a: seq<Event>, b: seq<Event>, now: real, mid: real)
    requires Ordered(a, now) && Ordered(b, mid) && now <= mid
    requires forall i :: 0 <= i < |a| ==> a[i].at <= mid
    ensures Ordered(a + b, now)
    decreases |a|
  {
    if a == [] {
      assert a + b == b;
      if b != [] { assert now <= b[0].at; }
    } else {
      OrderedAppend(a[1..], b, a[0].at, mid);
      assert (a + b)[1..] == a[1..] + b;
    }
  }

  lemma {:induction false} RepeatOrdered(e: Event, n: nat)
    ensures Ordered(Repeat(e, n), e.at)
    ensures forall i :: 0 <= i < |Repeat(e, n)| ==> Repeat(e, n)[i] == e
  {
    if n > 0 {
      RepeatOrdered(e, n - 1);
      OrderedAppend(Repeat(e, n - 1), [e], e.at, e.at);
    }
  }

  /** `n` requests at one instant: the level falls by one each, or is below one. */
  lemma {:induction false} Drain(p: Params, evict: bool, m: Entries, ip: Ip, at: real, n: nat)
    requires p.r >= 0.0 && EntriesOk(p, m, at)
    ensures var k := After(p, evict, m, Repeat(Req(ip, at), n)); var x := Refill(p, BucketFor(p, m, ip, at), at);
      && EntriesOk(p, k, at)
      && (n > 0 ==> ip in k && k[ip].lastSeen == at)
      && (Refill(p, BucketFor(p, k, ip, at), at) < 1.0 || Refill(p, BucketFor(p, k, ip, at), at) == x - n as real)
      && (x >= n as real ==> Refill(p, BucketFor(p, k, ip, at), at) == x - n as real)
  {
    if n > 0 {
      var e := Req(ip, at);
      var k := After(p, evict, m, Repeat(e, n - 1));
      Drain(p, evict, m, ip, at, n - 1);
      AfterAppend(p, evict, m, Repeat(e, n - 1), [e]);
      assert After(p, evict, k, [e]) == Step(p, evict, k, e);
      StepOk(p, evict, k, e);
      SpendOk(p, BucketFor(p, k, ip, at), at);
    }
  }

  /** With a slower refill, a burst, a pause just over ttl, a cleanup and a second
      burst get one answer that depends on the eviction. */
  lemma SlowRefillShows(p: Params, ip: Ip) returns (es: seq<Event>)
    requires p.r > 0.0 && p.ttl >= 0.0 && p.burst >= 1 && p.burst as real > p.r * p.ttl
    ensures Ordered(es, 0.0) && Answers(p, true, map[], es) != Answers(p, false, map[], es)
  {
    var full := p.burst as real / p.r;
    var d := (p.ttl + full) / 2.0;
    Pause(p, d);
    var a, b, last := Repeat(Req(ip, 0.0), p.burst), Repeat(Req(ip, d), p.burst - 1), Req(ip, d);
    var mid := [Tick(d)] + b;
    es := a + mid + [last];
    RepeatOrdered(Req(ip, 0.0), p.burst);
    RepeatOrdered(last, p.burst - 1);
    OrderedAppend(b, [last], d, d);
    assert mid + [last] == [Tick(d)] + (b + [last]);
    OrderedAppend(a, mid + [last], 0.0, d);
    assert es == a + (mid + [last]);
    AnswersAppend(p, true, map[], a + mid, [last]);
    AnswersAppend(p, false, map[], a + mid, [last]);
    AfterAppend(p, true, map[], a, mid);
    AfterAppend(p, false, map[], a, mid);
    SecondBurst(p, ip, d, true);
    SecondBurst(p, ip, d, false);
    var e, f := After(p, true, map[], a + mid), After(p, false, map[], a + mid);
    assert Answer(p, e, last) && !Answer(p, f, last);
    SameLength(p, map[], a + mid);
    assert Answers(p, true, e, [last]) == [true] && Answers(p, false, f, [last]) == [false];
    assert Answers(p, true, map[], es)[|a + mid|] && !Answers(p, false, map[], es)[|a + mid|];
  }

  lemma {:induction false} SameLength(p: Params, m: Entries, es: seq<Event>)
    ensures |Answers(p, true, m, es)| == |es| == |Answers(p, false, m, es)|
  {
    AnswersLength(p, true, m, es);
    AnswersLength(p, false, m, es);
  }

  lemma {:induction false} AnswersLength(p: Params, evict: bool, m: Entries, es: seq<Event>)
    ensures |Answers(p, evict, m, es)| == |es|
    decreases |es|
  {
    if es != [] { AnswersLength(p, evict, Step(p, evict, m, es[0]), es[1..]); }
  }

  /** A pause halfway between the idle time and a full refill. */
  lemma Pause(p: Params, d: real)
    requires p.r > 0.0 && p.burst as real > p.r * p.ttl && d == (p.ttl + p.burst as real / p.r) / 2.0
    ensures d > p.ttl && p.r * d < p.burst as real
  {
    var full := p.burst as real / p.r;
    assert p.r * full == p.burst as real;
    Distribute(p.r, full, -p.ttl);
    assert p.r * (full - p.ttl) > 0.0;
    assert full - p.ttl > 0.0;
    Distribute(p.r, d, full - d);
    assert p.r * (full - d) > 0.0;
  }

  /** After the first burst the bucket is empty; a pause of `d` refills r * d. */
  lemma FirstBurst(p: Params, ip: Ip, d: real, evict: bool)
    requires p.r > 0.0 && p.ttl >= 0.0 && p.burst >= 1 && d > p.ttl && p.r * d < p.burst as real
    ensures var m := After(p, evict, map[], Repeat(Req(ip, 0.0), p.burst));
      && EntriesOk(p, m, 0.0) && ip in m && m[ip].lastSeen == 0.0
      && Refill(p, m[ip].lim, d) == p.r * d
  {
    var m := After(p, evict, map[], Repeat(Req(ip, 0.0), p.burst));
    assert p.r * (0.0 - 0.0) == 0.0;
    Drain(p, evict, map[], ip, 0.0, p.burst);
    RefillLater(p, m[ip].lim, 0.0, d);
  }

  /** Before the last request of the second burst: one token left after an eviction,
      less than one without. */
  lemma SecondBurst(p: Params, ip: Ip, d: real, evict: bool)
    requires p.r > 0.0 && p.ttl >= 0.0 && p.burst >= 1 && d > p.ttl && p.r * d < p.burst as real
    ensures var a, mid := Repeat(Req(ip, 0.0), p.burst), [Tick(d)] + Repeat(Req(ip, d), p.burst - 1);
      var k := After(p, evict, After(p, evict, map[], a), mid);
      Allows(p, BucketFor(p, k, ip, d), d) == evict
  {
    var b := Repeat(Req(ip, d), p.burst - 1);
    var m := After(p, evict, map[], Repeat(Req(ip, 0.0), p.burst));
    FirstBurst(p, ip, d, evict);
    OkLater(p, m, 0.0, d);
    StepOk(p, evict, m, Tick(d));
    assert ([Tick(d)] + b)[1..] == b;
    assert p.r * (d - d) == 0.0;
    Drain(p, evict, Step(p, evict, m, Tick(d)), ip, d, p.burst - 1);
  }

  /** Main result: eviction is unobservable on every schedule exactly when a bucket
      refills within the idle time. */
  lemma UnobservableIffRefills(p: Params)
    requires p.r > 0.0 && p.ttl >= 0.0 && p.burst >= 1
    ensures (forall es :: Ordered(es, 0.0) ==> Answers(p, true, map[], es) == Answers(p, false, map[], es))
      <==> p.burst as real <= p.r * p.ttl
  {
    if p.burst as real <= p.r * p.ttl {
      forall es | Ordered(es, 0.0) ensures Answers(p, true, map[], es) == Answers(p, false, map[], es) {
        SameAnswers(p, map[], map[], es, 0.0);
      }
    } else {
      var es := SlowRefillShows(p, "ip");
    }
  }

  /** Main result: an address without an entry gets exactly as many requests through at
      once as there are upload slots, whatever others did. */
  lemma {:induction false} FreshBurst(slots: nat, evict: bool, m: Entries, ip: Ip, at: real, n: nat)
    requires ip !in m && EntriesOk(ComputeParams(slots), m, at)
    ensures var answers := Answers(ComputeParams(slots), evict, m, Repeat(Req(ip, at), n));
      |answers| == n && forall i :: 0 <= i < n ==> answers[i] == (i < slots)
  {
    var p, e := ComputeParams(slots), Req(ip, at);
    if n > 0 {
      FreshBurst(slots, evict, m, ip, at, n - 1);
      AnswersAppend(p, evict, m, Repeat(e, n - 1), [e]);
      NthOfBurst(slots, evict, m, ip, at, n - 1);
    }
  }

  lemma NthOfBurst(slots: nat, evict: bool, m: Entries, ip: Ip, at: real, n: nat)
    requires ip !in m && EntriesOk(ComputeParams(slots), m, at)
    ensures var p := ComputeParams(slots); var k := After(p, evict, m, Repeat(Req(ip, at), n));
      Answers(p, evict, k, [Req(ip, at)]) == [n < slots]
  {
    var p := ComputeParams(slots);
    Drain(p, evict, m, ip, at, n);
    assert p.r * (at - at) == 0.0;
  }
}
