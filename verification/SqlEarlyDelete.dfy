/** What a DELETE can do on SQL that comes in before its id is published: with
    RemovalCauses this makes publication the exact condition under which the
    protected flag guards a paste. */
module SqlEarlyDelete {
  import opened Bytes
  import opened SqlInvariant
  import opened SqlMachine
  import opened SqlRuns
  import opened SqlSafety
  import opened SqlTheorems
  import opened Ttl
  import opened Wrappers

  // A POST run up to its INSERT, then the early DELETE's peek, the INSERT, the DELETE.

  /** A POST of a protected paste that the handler does not turn away. */
  predicate Accepted(cfg: Config, post: Post, nonce: ByteString) {
    && cfg.protectedOn && post.prot && post.contentLength <= cfg.maxPasteSize
    && |Truncate(cfg, post.body)| > 0 && RequestedTtl(post.ttl).Some?
    && Seal(cfg, Truncate(cfg, post.body), nonce).Some?
  }

  function RowOf(cfg: Config, post: Post, nonce: ByteString): Row
    requires Accepted(cfg, post, nonce)
  {
    Asked(cfg, post, Seal(cfg, Truncate(cfg, post.body), nonce).value)
  }

  function TtlOf(cfg: Config, post: Post, nonce: ByteString): int
    requires Accepted(cfg, post, nonce)
  {
    ResolveTtl(cfg.maxTtl, RequestedTtl(post.ttl).value)
  }

  /** The last nanosecond of the second of `t`: any TTL then reaches the next one. */
  function EndOfSecond(t: int): int {
    t / SECOND * SECOND + SECOND - 1
  }

  lemma LiveAtOnce(cfg: Config, t: int, row: Row, ttl: int)
    requires t == EndOfSecond(t)
    ensures !Dead(cfg, row.(expireAt := ExpireAt(cfg.backend, t, ttl)), t)
  {}

  /** The POST from its arrival to the choice of its id. */
  function Upload(post: Post, env: Env, u: Tid, to: int): seq<Label> {
    [Arrive(u, Create(post, 0, Begin)), Run(u, env), Run(u, env), Run(u, env), Tick(to)]
  }

  lemma Uploads(cfg: Config, s: State, post: Post, env: Env, u: Tid) returns (k: State)
    requires Accepted(cfg, post, env.nonce) && !env.fault && s.sem < cfg.capacity && u !in s.threads
    ensures Leads(cfg, s, Upload(post, env, u, EndOfSecond(s.now)), k)
    ensures k == State(
      EndOfSecond(s.now), s.rows, s.sem + 1,
      s.threads[u := Create(post, 0, Naming(RowOf(cfg, post, env.nonce), TtlOf(cfg, post, env.nonce)))],
      s.ever, s.fate)
  {
    var arrive, run, tick := Arrive(u, Create(post, 0, Begin)), Run(u, env), Tick(EndOfSecond(s.now));
    var content := Seal(cfg, Truncate(cfg, post.body), env.nonce).value;
    var s1 := s.(threads := s.threads[u := Create(post, 0, Begin)]);
    var s2 := s.(sem := s.sem + 1, threads := s.threads[u := Create(post, 0, Sealing)]);
    var s3 := s2.(threads := s.threads[u := Create(post, 0, Deciding(content))]);
    var s4 := s2.(threads := s.threads[
      u := Create(post, 0, Naming(RowOf(cfg, post, env.nonce), TtlOf(cfg, post, env.nonce)))]);
    k := s4.(now := EndOfSecond(s.now));
    UploadSteps(cfg, s1, s2, s3, s4, post, env, u);
    LeadsOne(cfg, s4, tick);
    ThreeSteps(cfg, s1, s2, s3, s4, run, [tick], k);
    LeadsFrom(cfg, s, arrive, [run, run, run] + [tick], k);
    assert Upload(post, env, u, EndOfSecond(s.now)) == [arrive] + ([run, run, run] + [tick]);
  }

  lemma ThreeSteps(cfg: Config, s1: State, s2: State, s3: State, s4: State, l: Label, rest: seq<Label>, k: State)
    requires Enabled(cfg, s1, l) && Enabled(cfg, s2, l) && Enabled(cfg, s3, l)
    requires Next(cfg, s1, l) == s2 && Next(cfg, s2, l) == s3 && Next(cfg, s3, l) == s4 && Leads(cfg, s4, rest, k)
    ensures Leads(cfg, s1, [l, l, l] + rest, k)
  {
    LeadsFrom(cfg, s3, l, rest, k);
    LeadsFrom(cfg, s2, l, [l] + rest, k);
    LeadsFrom(cfg, s1, l, [l] + ([l] + rest), k);
    assert [l, l, l] + rest == [l] + ([l] + ([l] + rest));
  }

  lemma UploadSteps(cfg: Config, s1: State, s2: State, s3: State, s4: State, post: Post, env: Env, u: Tid)
    requires Accepted(cfg, post, env.nonce) && !env.fault && s1.sem < cfg.capacity
    requires u in s1.threads && s1.threads[u] == Create(post, 0, Begin)
    requires s2 == s1.(sem := s1.sem + 1, threads := s1.threads[u := Create(post, 0, Sealing)])
    requires s3 ==
      s2.(threads := s1.threads[u := Create(post, 0, Deciding(Seal(cfg, Truncate(cfg, post.body), env.nonce).value))])
    requires s4 ==
      s2.(threads := s1.threads[u := Create(post, 0, Naming(RowOf(cfg, post, env.nonce), TtlOf(cfg, post, env.nonce)))])
    ensures Next(cfg, s1, Run(u, env)) == s2 && Next(cfg, s2, Run(u, env)) == s3 && Next(cfg, s3, Run(u, env)) == s4
  {
    assert s1.threads[u := Create(post, 0, Sealing)] == s2.threads;
    assert s2.threads[u := s3.threads[u]] == s3.threads;
    assert s3.threads[u := s4.threads[u]] == s4.threads;
  }

  /** The id drawn, the DELETE's peek, the INSERT. */
  function Crossing(env: Env, u: Tid, d: Tid): seq<Label> {
    [Run(u, env), Run(d, env), Run(u, env)]
  }

  lemma Crosses(cfg: Config, s: State, id: Id, row: Row, ttl: int, post: Post, env: Env, d: Tid, u: Tid)
    returns (k: State)
    requires id !in s.ever && id !in s.rows && d != u && !env.fault && env.slug == id
    requires d in s.threads && s.threads[d] == Remove(id, false, Guarding(Select))
    requires u in s.threads && s.threads[u] == Create(post, 0, Naming(row, ttl))
    ensures Leads(cfg, s, Crossing(env, u, d), k) && k.now == s.now
    ensures id in k.rows && k.rows[id] == row.(expireAt := ExpireAt(cfg.backend, s.now, ttl))
    ensures d in k.threads && k.threads[d] == Remove(id, false, Erasing)
  {
    var full := row.(expireAt := ExpireAt(cfg.backend, s.now, ttl));
    var s1 := s.(threads := s.threads[u := Create(post, 0, Saving(id, full, ttl, s.now))]);
    var s2 := s1.(threads := s1.threads[d := Remove(id, false, Erasing)]);
    assert Next(cfg, s, Run(u, env)) == s1;
    assert Next(cfg, s1, Run(d, env)) == s2;
    k := Next(cfg, s2, Run(u, env));
    LeadsOne(cfg, s2, Run(u, env));
    LeadsFrom(cfg, s1, Run(d, env), [Run(u, env)], k);
    LeadsFrom(cfg, s, Run(u, env), [Run(d, env), Run(u, env)], k);
  }

  /** On the way at `m`, a live protected row is there, and the next step of thread `d`,
      a DELETE, takes it. */
  ghost predicate Takes(cfg: Config, s: State, run: seq<Label>, m: State, id: Id, d: Tid, env: Env) {
    && Leads(cfg, s, run, m) && id in m.rows && m.rows[id].prot && !Dead(cfg, m.rows[id], m.now)
    && Enabled(cfg, m, Run(d, env)) && m.threads[d].Remove? && id !in Next(cfg, m, Run(d, env)).rows
  }

  /** Main result: from every reachable state with a free slot, a DELETE of an id nobody
      has inserted can be followed by steps in which it takes the live paste of any
      accepted protected POST. */
  lemma EarlyDeleteTakesProtected(cfg: Config, now: int, before: seq<Label>, id: Id, post: Post, nonce: ByteString,
                                  d: Tid, u: Tid)
    requires Lawful(cfg.aead) && Legal(cfg, Init(now), before) && Accepted(cfg, post, nonce)
    requires var s := After(cfg, Init(now), before);
      s.sem < cfg.capacity && id !in s.ever && d !in s.threads && u !in s.threads && d != u
    ensures exists run, m, env ::
      Takes(cfg, After(cfg, Init(now), before), [Arrive(d, Remove(id, false, Guarding(Select)))] + run, m, id, d, env)
  {
    var s := After(cfg, Init(now), before);
    var env := Env(false, id, nonce);
    var arrive := Arrive(d, Remove(id, false, Guarding(Select)));
    var upload, crossing := Upload(post, env, u, EndOfSecond(s.now)), Crossing(env, u, d);
    var row, ttl := RowOf(cfg, post, nonce), TtlOf(cfg, post, nonce);
    Reachable(cfg, now, before);
    NotInsertedNotPublished(cfg, s, id);
    var s1 := Next(cfg, s, arrive);
    var s2 := Uploads(cfg, s1, post, env, u);
    var m := Crosses(cfg, s2, id, row, ttl, post, env, d, u);
    LeadsOnward(cfg, s1, upload, s2, crossing, m);
    LeadsFrom(cfg, s, arrive, upload + crossing, m);
    LiveAtOnce(cfg, s2.now, row, ttl);
    assert Takes(cfg, s, [arrive] + (upload + crossing), m, id, d, env);
  }

  lemma NotInsertedNotPublished(cfg: Config, s: State, id: Id)
    requires Inv(cfg, s)
    ensures Published(s, id) <==> id in s.ever
  {
    if Published(s, id) { PublishedWasInserted(cfg, s, id); }
    if id in s.ever { assert OriginOk(cfg, s, id); }
  }

  // The other direction: a DELETE that came in known.

  lemma {:induction false} LegalJoin(cfg: Config, s: State, a: seq<Label>, b: seq<Label>)
    requires Legal(cfg, s, a) && Legal(cfg, After(cfg, s, a), b)
    ensures Legal(cfg, s, a + b) && After(cfg, s, a + b) == After(cfg, After(cfg, s, a), b)
    decreases |a|
  {
    LeadsOnward(cfg, s, a, After(cfg, s, a), b, After(cfg, After(cfg, s, a), b));
  }

  lemma RemoveStepStays(cfg: Config, s: State, l: Label, d: Tid)
    requires Enabled(cfg, s, l) && d in s.threads && s.threads[d].Remove?
    ensures var s' := Next(cfg, s, l);
      d in s'.threads && s'.threads[d].Remove? && s'.threads[d].id == s.threads[d].id &&
      s'.threads[d].known == s.threads[d].known
  {
    if l.Run? && l.t == d { RemoveStays(cfg, s, s.threads[d], l.env); }
  }

  lemma RemoveStays(cfg: Config, s: State, thread: Thread, env: Env)
    requires thread.Remove?
    ensures var next := ThreadStep(cfg, s, thread, env).0;
      next.Remove? && next.id == thread.id && next.known == thread.known
  {}

  lemma {:induction false} RemoveStaysAlong(cfg: Config, s: State, run: seq<Label>, d: Tid)
    requires Legal(cfg, s, run) && d in s.threads && s.threads[d].Remove?
    ensures var k := After(cfg, s, run);
      d in k.threads && k.threads[d].Remove? && k.threads[d].id == s.threads[d].id &&
      k.threads[d].known == s.threads[d].known
    decreases |run|
  {
    if run != [] {
      RemoveStepStays(cfg, s, run[0], d);
      RemoveStaysAlong(cfg, Next(cfg, s, run[0]), run[1..], d);
    }
  }

  lemma KnownTakesNone(cfg: Config, now: int, before: seq<Label>, id: Id, d: Tid, run: seq<Label>, m: State, env: Env)
    requires Lawful(cfg.aead) && Legal(cfg, Init(now), before) && cfg.protectedOn
    requires var s := After(cfg, Init(now), before); Published(s, id) && d !in s.threads
    ensures !Takes(cfg, After(cfg, Init(now), before), [Arrive(d, Remove(id, true, Guarding(Select)))] + run,
                   m, id, d, env)
  {
    var s := After(cfg, Init(now), before);
    var arrive := Arrive(d, Remove(id, true, Guarding(Select)));
    if Takes(cfg, s, [arrive] + run, m, id, d, env) {
      assert ([arrive] + run)[1..] == run;
      RemoveStaysAlong(cfg, Next(cfg, s, arrive), run, d);
      LegalJoin(cfg, Init(now), before, [arrive] + run);
      RemovalCauses(cfg, now, before + ([arrive] + run), Run(d, env), id);
      RemoveStays(cfg, m, m.threads[d], env);
    }
  }

  const PLAIN_POST := Post([7], 1, None, Absent, true, false, "text")
  const ZERO_NONCE: ByteString := [0, 0, 0, 0, 0, 0, 0, 0, 0, 0, 0, 0]

  /** Main result: the flag guards against a DELETE exactly when that names an id some
      201 has returned: if and only if, from every reachable state with a free slot. */
  lemma PublicationIsExact(cfg: Config, now: int, before: seq<Label>, id: Id, d: Tid, u: Tid)
    requires Lawful(cfg.aead) && Legal(cfg, Init(now), before) && cfg.protectedOn && cfg.maxPasteSize > 0
    requires var s := After(cfg, Init(now), before);
      s.sem < cfg.capacity && d !in s.threads && u !in s.threads && d != u
    ensures var s := After(cfg, Init(now), before); var known := Published(s, id);
      (exists run, m, env :: Takes(cfg, s, [Arrive(d, Remove(id, known, Guarding(Select)))] + run, m, id, d, env)) <==>
      !known
  {
    var s := After(cfg, Init(now), before);
    Reachable(cfg, now, before);
    NotInsertedNotPublished(cfg, s, id);
    if Published(s, id) {
      forall run, m, env ensures !Takes(cfg, s, [Arrive(d, Remove(id, true, Guarding(Select)))] + run, m, id, d, env) {
        KnownTakesNone(cfg, now, before, id, d, run, m, env);
      }
    } else {
      assert |Truncate(cfg, PLAIN_POST.body)| > 0;
      EarlyDeleteTakesProtected(cfg, now, before, id, PLAIN_POST, ZERO_NONCE, d, u);
    }
  }
}
