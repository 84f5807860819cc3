/** The objects of SqlStorage against the state machine: a request nobody interrupts does
    there what its handler does. */
module SqlAlone {
  import opened Bytes
  import opened Faults
  import opened SqlMachine
  import opened SqlRuns
  import opened SqlStorage
  import opened Ttl
  import opened Wrappers

  const FINE := Env(false, "", [])
  const FAULTY := Env(true, "", [])

  predicate Reading(thread: Thread, id: Id) {
    (thread.Fetch? || thread.Fetched?) && thread.id == id
  }

  lemma ReadingOn(cfg: Config, s: State, t: Tid, id: Id, env: Env)
    requires t in s.threads && Reading(s.threads[t], id)
    ensures var l := Run(t, env); var s' := Next(cfg, s, l);
      Enabled(cfg, s, l) && t in s'.threads && Reading(s'.threads[t], id) && s'.now == s.now
  {}

  /** `n` steps of thread `t`, without faults. */
  function Steps(t: Tid, n: nat): seq<Label> {
    if n == 0 then [] else [Run(t, FINE)] + Steps(t, n - 1)
  }

  function Alone(cfg: Config, s: State, t: Tid, n: nat): State
    decreases n
  {
    if n == 0 then s else Alone(cfg, Next(cfg, s, Run(t, FINE)), t, n - 1)
  }

  lemma {:induction false} StepsLead(cfg: Config, s: State, t: Tid, id: Id, n: nat)
    requires t in s.threads && Reading(s.threads[t], id)
    ensures Leads(cfg, s, Steps(t, n), Alone(cfg, s, t, n)) && Alone(cfg, s, t, n).now == s.now
    decreases n
  {
    if n > 0 {
      ReadingOn(cfg, s, t, id, FINE);
      StepsLead(cfg, Next(cfg, s, Run(t, FINE)), t, id, n - 1);
      LeadsFrom(cfg, s, Run(t, FINE), Steps(t, n - 1), Alone(cfg, s, t, n));
    }
  }

  lemma {:induction false} AloneMore(cfg: Config, s: State, t: Tid, n: nat, k: nat)
    ensures Alone(cfg, s, t, n + k) == Alone(cfg, Alone(cfg, s, t, n), t, k)
    decreases n
  {
    if n > 0 { AloneMore(cfg, Next(cfg, s, Run(t, FINE)), t, n - 1, k); }
  }

  /** PeekMeta or Get in a row. */
  lemma ReadAlone(cfg: Config, s: State, t: Tid, id: Id, stage: Stage) returns (n: nat)
    requires t in s.threads && s.threads[t] == Fetch(id, stage, Select) && stage != Taking
    ensures var k := Alone(cfg, s, t, n); var found := Live(cfg.backend, s.rows, id, s.now);
      && t in k.threads && k.threads[t] == FetchNext(id, stage, found, s.now)
      && k.rows == Tidied(cfg.backend, s.rows, id, s.now)
  {
    n := if id !in s.rows || cfg.backend == Postgres then 1 else if Dead(cfg, s.rows[id], s.now) then 3 else 2;
    var s1 := Next(cfg, s, Run(t, FINE));
    AloneMore(cfg, s, t, 1, n - 1);
    if n > 1 {
      var s2 := Next(cfg, s1, Run(t, FINE));
      AloneMore(cfg, s1, t, 1, n - 2);
    }
  }

  /** The call at time `at`, failing in its first statement or not at all. */
  lemma ReadCall(cfg: Config, s: State, t: Tid, id: Id, stage: Stage, at: int, fails: bool)
    returns (run: seq<Label>, k: State)
    requires t in s.threads && s.threads[t] == Fetch(id, stage, Select) && stage != Taking && s.now <= at
    ensures Leads(cfg, s, run, k) && t in k.threads && k.now == at
    ensures !fails ==> k.threads[t] == FetchNext(id, stage, Live(cfg.backend, s.rows, id, at), at)
    ensures !fails ==> k.rows == Tidied(cfg.backend, s.rows, id, at)
    ensures fails ==>
      k.threads[t] == (if stage == Peeking then Fetch(id, Getting(true), Select) else Fetched(id, None, at))
    ensures fails ==> k.rows == s.rows
  {
    var s0 := Next(cfg, s, Tick(at));
    if fails {
      ReadingOn(cfg, s0, t, id, FAULTY);
      k := Next(cfg, s0, Run(t, FAULTY));
      LeadsOne(cfg, s0, Run(t, FAULTY));
      LeadsFrom(cfg, s, Tick(at), [Run(t, FAULTY)], k);
      run := [Tick(at)] + [Run(t, FAULTY)];
    } else {
      var n := ReadAlone(cfg, s0, t, id, stage);
      k := Alone(cfg, s0, t, n);
      StepsLead(cfg, s0, t, id, n);
      LeadsFrom(cfg, s, Tick(at), Steps(t, n), k);
      run := [Tick(at)] + Steps(t, n);
    }
  }

  /** GetAndDelete at time `at`. */
  lemma TakeCall(cfg: Config, s: State, t: Tid, id: Id, at: int, fails: bool) returns (run: seq<Label>, k: State)
    requires t in s.threads && s.threads[t] == Fetch(id, Taking, Clock) && s.now <= at
    ensures Leads(cfg, s, run, k) && t in k.threads && k.now == at
    ensures var found := Live(cfg.backend, s.rows, id, at);
      && k.threads[t] == Fetched(id, if fails then None else found, at)
      && k.rows == if !fails && found.Some? then Without(s.rows, id) else s.rows
  {
    var env := if fails then FAULTY else FINE;
    var s0 := Next(cfg, s, Tick(at));
    var s1 := Next(cfg, s0, Run(t, FINE));
    k := Next(cfg, s1, Run(t, env));
    ReadingOn(cfg, s0, t, id, FINE);
    LeadsOne(cfg, s1, Run(t, env));
    LeadsFrom(cfg, s0, Run(t, FINE), [Run(t, env)], k);
    LeadsFrom(cfg, s, Tick(at), [Run(t, FINE)] + [Run(t, env)], k);
    run := [Tick(at)] + ([Run(t, FINE)] + [Run(t, env)]);
  }

  /** A take whose statement runs at `later`: SQLite answers by the clock reading made before
      it, PostgreSQL by the statement's own. */
  lemma TakeOnOldReading(cfg: Config, s: State, t: Tid, id: Id, later: int) returns (run: seq<Label>, k: State)
    requires t in s.threads && s.threads[t] == Fetch(id, Taking, Clock) && s.now <= later
    ensures Leads(cfg, s, run, k) && t in k.threads && k.now == later
    ensures var at := if cfg.backend == Sqlite then s.now else later; var found := Live(cfg.backend, s.rows, id, at);
      k.threads[t] == Fetched(id, found, at) && k.rows == if found.Some? then Without(s.rows, id) else s.rows
  {
    var s0 := Next(cfg, s, Run(t, FINE));
    var s1 := Next(cfg, s0, Tick(later));
    k := Next(cfg, s1, Run(t, FINE));
    LeadsOne(cfg, s1, Run(t, FINE));
    LeadsFrom(cfg, s0, Tick(later), [Run(t, FINE)], k);
    ReadingOn(cfg, s, t, id, FINE);
    LeadsFrom(cfg, s, Run(t, FINE), [Tick(later)] + [Run(t, FINE)], k);
    run := [Run(t, FINE)] + ([Tick(later)] + [Run(t, FINE)]);
  }

  /** The rest of a fetch that has peeked. */
  lemma GetCalls(cfg: Config, s: State, t: Tid, id: Id, fallback: bool, f: Faults, t2: int, t3: int)
    returns (run: seq<Label>, k: State)
    requires t in s.threads && s.threads[t] == Fetch(id, Getting(fallback), Select) && s.now <= t2 <= t3
    ensures Leads(cfg, s, run, k) && t in k.threads && k.threads[t].Fetched? && k.threads[t].id == id
    ensures var b := cfg.backend; var burns := fallback && Live(b, s.rows, id, t2).Some? && s.rows[id].burn;
      && k.threads[t].answer ==
           (if f.get || (burns && f.take) then None else Live(b, s.rows, id, if burns then t3 else t2))
      && k.rows == (if f.get || (burns && f.take) then s.rows
                    else if burns then (if Live(b, s.rows, id, t3).Some? then Without(s.rows, id) else s.rows)
                    else Tidied(b, s.rows, id, t2))
  {
    run, k := ReadCall(cfg, s, t, id, Getting(fallback), t2, f.get);
    if k.threads[t].Fetch? {
      var get, m := run, k;
      run, k := TakeCall(cfg, m, t, id, t3, f.take);
      LeadsOnward(cfg, s, get, m, run, k);
      run := get + run;
    }
  }

  /** Main result: left alone, the machine fetches as FetchPaste does, at whatever times
      its calls run and whichever of them fail. */
  lemma FetchAlone(cfg: Config, s: State, t: Tid, id: Id, f: Faults, t1: int, t2: int, t3: int)
    returns (run: seq<Label>, k: State)
    requires t in s.threads && s.threads[t] == Fetch(id, Peeking, Select) && s.now <= t1 <= t2 <= t3
    ensures Leads(cfg, s, run, k) && t in k.threads && k.threads[t].Fetched? && k.threads[t].id == id
    ensures k.threads[t].answer == FetchAnswer(cfg.backend, s.rows, id, f, t1, t2, t3)
    ensures k.rows == FetchRows(cfg.backend, s.rows, id, f, t1, t2, t3)
  {
    StillExpired(cfg.backend, s.rows, id, t1, t2);
    StillExpired(cfg.backend, s.rows, id, t2, t3);
    var peek, m := ReadCall(cfg, s, t, id, Peeking, t1, f.peek);
    if m.threads[t].stage == Taking {
      run, k := TakeCall(cfg, m, t, id, t2, f.take);
    } else {
      run, k := GetCalls(cfg, m, t, id, m.threads[t].stage.fallback, f, t2, t3);
    }
    LeadsOnward(cfg, s, peek, m, run, k);
    run := peek + run;
  }

  /** The steps of one try, at the time of its draw. */
  function Try(t: Tid, d: Draw): seq<Label> {
    [Tick(d.at), Run(t, Env(d.noSlug, d.slug, []))] + if d.noSlug then [] else [Run(t, Env(d.saveFails, d.slug, []))]
  }

  function Tries(t: Tid, rows: map<Id, Row>, draws: seq<Draw>): seq<Label>
    decreases |draws|
  {
    if draws == [] then []
    else if draws[0].noSlug || draws[0].saveFails || draws[0].slug !in rows then Try(t, draws[0])
    else Try(t, draws[0]) + Tries(t, rows, draws[1..])
  }

  lemma TryAlone(cfg: Config, s: State, t: Tid, post: Post, saves: nat, paste: Row, ttl: int, d: Draw)
    requires t in s.threads && s.threads[t] == Create(post, saves, Naming(paste, ttl)) && paste.expireAt == None
    ensures var k := After(cfg, s, Try(t, d)); var taken := d.slug in s.rows;
      && t in k.threads && k.sem == s.sem
      && (d.noSlug ==> k.threads[t] == Create(post, saves, Leaving(500, "")) && k.rows == s.rows)
      && (!d.noSlug && d.saveFails ==> k.threads[t] == Create(post, saves + 1, Leaving(500, "")) && k.rows == s.rows)
      && (!d.noSlug && !d.saveFails && !taken ==> k.threads[t] == Create(post, saves + 1, Leaving(201, d.slug)))
      && (!d.noSlug && !d.saveFails && !taken ==>
           k.rows == s.rows[d.slug := paste.(expireAt := ExpireAt(cfg.backend, d.at, ttl))])
      && (!d.noSlug && !d.saveFails && taken ==> k.rows == s.rows)
      && (!d.noSlug && !d.saveFails && taken ==>
        k.threads[t] ==
          Create(post, saves + 1, if saves + 1 < MAX_SLUG_RETRIES then Naming(paste, ttl) else Leaving(500, "")))
  {
    var tick, name, save := Tick(d.at), Run(t, Env(d.noSlug, d.slug, [])), Run(t, Env(d.saveFails, d.slug, []));
    AfterTwo(cfg, s, tick, name);
    AfterThree(cfg, s, tick, name, save);
    if d.noSlug {
      assert Try(t, d) == [tick, name];
    } else {
      assert Try(t, d) == [tick, name, save];
    }
  }

  lemma AfterOne(cfg: Config, s: State, a: Label)
    ensures After(cfg, s, [a]) == Next(cfg, s, a)
  {}

  lemma AfterTwo(cfg: Config, s: State, a: Label, b: Label)
    ensures After(cfg, s, [a, b]) == Next(cfg, Next(cfg, s, a), b)
  {
    assert [a, b][1..] == [b];
    AfterOne(cfg, Next(cfg, s, a), b);
  }

  lemma AfterThree(cfg: Config, s: State, a: Label, b: Label, c: Label)
    ensures After(cfg, s, [a, b, c]) == Next(cfg, Next(cfg, Next(cfg, s, a), b), c)
  {
    assert [a, b, c][1..] == [b, c];
    AfterTwo(cfg, Next(cfg, s, a), b, c);
  }

  lemma {:induction false} AfterAppend(cfg: Config, s: State, a: seq<Label>, b: seq<Label>)
    ensures After(cfg, s, a + b) == After(cfg, After(cfg, s, a), b)
    decreases |a|
  {
    if a == [] {
      assert a + b == b;
    } else {
      AfterAppend(cfg, Next(cfg, s, a[0]), a[1..], b);
      assert (a + b)[1..] == a[1..] + b;
    }
  }

  /** Main result: so does the retry loop of the machine what the loop of Upload does. */
  lemma {:induction false} TriesAlone(cfg: Config, s: State, t: Tid, post: Post, saves: nat, paste: Row, ttl: int,
                                      draws: seq<Draw>)
    requires t in s.threads && s.threads[t] == Create(post, saves, Naming(paste, ttl)) && paste.expireAt == None
    requires draws != [] && saves + |draws| == MAX_SLUG_RETRIES
    ensures var k := After(cfg, s, Tries(t, s.rows, draws));
      var (status, id, rows) := Trying(cfg.backend, s.rows, paste, ttl, draws);
      && t in k.threads && k.threads[t].Create? && k.threads[t].post == post
      && k.threads[t].cpc == Leaving(status, id) && k.rows == rows && k.sem == s.sem
    decreases |draws|
  {
    var d := draws[0];
    TryAlone(cfg, s, t, post, saves, paste, ttl, d);
    if !d.noSlug && !d.saveFails && d.slug in s.rows {
      var k := After(cfg, s, Try(t, d));
      AfterAppend(cfg, s, Try(t, d), Tries(t, s.rows, draws[1..]));
      if |draws| > 1 {
        TriesAlone(cfg, k, t, post, saves + 1, paste, ttl, draws[1..]);
      } else {
        assert draws[1..] == [];
        assert Try(t, d) + [] == Try(t, d);
      }
    }
  }

  // DELETE.

  lemma EraseCall(cfg: Config, s: State, t: Tid, id: Id, known: bool, fails: bool) returns (run: seq<Label>, k: State)
    requires t in s.threads && s.threads[t] == Remove(id, known, Erasing)
    ensures Leads(cfg, s, run, k) && t in k.threads
    ensures k.threads[t] == Remove(id, known, Removed(if fails then 500 else 200))
    ensures k.rows == if fails then s.rows else Without(s.rows, id)
  {
    var env := if fails then FAULTY else FINE;
    k := Next(cfg, s, Run(t, env));
    LeadsOne(cfg, s, Run(t, env));
    run := [Run(t, env)];
  }

  /** The guard's PeekMeta at the present time, without a fault. */
  lemma GuardCall(cfg: Config, s: State, t: Tid, id: Id, known: bool) returns (run: seq<Label>, k: State)
    requires t in s.threads && s.threads[t] == Remove(id, known, Guarding(Select))
    ensures Leads(cfg, s, run, k) && t in k.threads && k.now == s.now
    ensures var found := Live(cfg.backend, s.rows, id, s.now);
      && k.threads[t] == Remove(id, known, if found.Some? && found.value.prot then Removed(403) else Erasing)
      && k.rows == Tidied(cfg.backend, s.rows, id, s.now)
  {
    var step := Run(t, FINE);
    var s1 := Next(cfg, s, step);
    LeadsOne(cfg, s, step);
    run, k := [step], s1;
    if s1.threads[t].rpc.Guarding? {
      var s2 := Next(cfg, s1, step);
      LeadsOne(cfg, s1, step);
      LeadsOnward(cfg, s, [step], s1, [step], s2);
      run, k := [step] + [step], s2;
      if s2.threads[t].rpc.Guarding? {
        k := Next(cfg, s2, step);
        LeadsOne(cfg, s2, step);
        LeadsOnward(cfg, s, run, s2, [step], k);
        run := run + [step];
      }
    }
  }

  /** Main result: so does its DELETE what HandleDelete does, whichever statement fails. */
  lemma DeleteAlone(cfg: Config, s: State, t: Tid, id: Id, known: bool, peekFails: bool, deleteFails: bool)
    returns (run: seq<Label>, k: State)
    requires t in s.threads
    requires s.threads[t] == Remove(id, known, if cfg.protectedOn then Guarding(Select) else Erasing)
    ensures Leads(cfg, s, run, k) && t in k.threads && k.threads[t].Remove? && k.threads[t].rpc.Removed?
    ensures Deletes(cfg.backend, cfg.protectedOn, s.rows, k.rows, id, peekFails, deleteFails, s.now,
                    k.threads[t].rpc.status)
  {
    if !cfg.protectedOn {
      run, k := EraseCall(cfg, s, t, id, known, deleteFails);
    } else if peekFails {
      k := Next(cfg, s, Run(t, FAULTY));
      LeadsOne(cfg, s, Run(t, FAULTY));
      run := [Run(t, FAULTY)];
    } else {
      run, k := GuardCall(cfg, s, t, id, known);
      if k.threads[t].rpc.Erasing? {
        var guard, m := run, k;
        run, k := EraseCall(cfg, m, t, id, known, deleteFails);
        LeadsOnward(cfg, s, guard, m, run, k);
        run := guard + run;
      }
    }
  }

  // POST.

  /** The steps of a POST behind its first: sealing, TTL, its tries, and the reply. */
  function UploadSteps(t: Tid, rows: map<Id, Row>, nonce: ByteString, draws: seq<Draw>): seq<Label> {
    [Run(t, Env(false, "", nonce)), Run(t, FINE)] + (Tries(t, rows, draws) + [Run(t, FINE)])
  }

  /** Labels that let time pass or run thread `t`. */
  ghost predicate OnlyMoves(run: seq<Label>, t: Tid) {
    forall l :: l in run ==> l.Tick? || (l.Run? && l.t == t)
  }

  lemma {:induction false} TriesMove(t: Tid, rows: map<Id, Row>, draws: seq<Draw>)
    ensures OnlyMoves(Tries(t, rows, draws), t)
    decreases |draws|
  {
    if draws != [] { TriesMove(t, rows, draws[1..]); }
  }

  /** Once it has been answered a POST does nothing more. */
  lemma {:induction false} RepliedStays(cfg: Config, s: State, run: seq<Label>, t: Tid)
    requires t in s.threads && s.threads[t].Create? && s.threads[t].cpc.Replied? && OnlyMoves(run, t)
    ensures var k := After(cfg, s, run);
      t in k.threads && k.threads[t] == s.threads[t] && k.rows == s.rows && k.sem == s.sem
    decreases |run|
  {
    if run != [] {
      assert run[0] in run;
      RepliedStays(cfg, Next(cfg, s, run[0]), run[1..], t);
    }
  }

  /** One that only has to reply does so with its next step, and gives its slot back. */
  lemma {:induction false} LeavesAlone(cfg: Config, s: State, run: seq<Label>, t: Tid)
    requires t in s.threads && s.threads[t].Create? && s.threads[t].cpc.Leaving? && s.sem > 0
    requires OnlyMoves(run, t) && exists l :: l in run && l.Run?
    ensures var c := s.threads[t].cpc;
      Posted(s.(sem := s.sem - 1), After(cfg, s, run), t, (c.status, c.id, s.rows))
    decreases |run|
  {
    assert run[0] in run;
    if run[0].Run? {
      RepliedStays(cfg, Next(cfg, s, run[0]), run[1..], t);
    } else {
      var l :| l in run && l.Run?;
      assert l in run[1..];
      LeavesAlone(cfg, Next(cfg, s, run[0]), run[1..], t);
    }
  }

  /** Answered as `o` says, with the table it says and no slot held. */
  ghost predicate Posted(s: State, k: State, t: Tid, o: (int, Id, map<Id, Row>)) {
    t in k.threads && k.threads[t].Create? && k.threads[t].cpc == Replied(o.0, o.1) && k.rows == o.2 && k.sem == s.sem
  }

  /** The tries and the reply, once the row and its TTL are decided. */
  lemma NamedAlone(cfg: Config, s: State, t: Tid, post: Post, row: Row, ttl: int, draws: seq<Draw>)
    requires t in s.threads && s.threads[t] == Create(post, 0, Naming(row, ttl)) && row.expireAt == None
    requires |draws| == MAX_SLUG_RETRIES && s.sem > 0
    ensures Posted(s.(sem := s.sem - 1), After(cfg, s, Tries(t, s.rows, draws) + [Run(t, FINE)]), t,
                   Trying(cfg.backend, s.rows, row, ttl, draws))
  {
    TriesAlone(cfg, s, t, post, 0, row, ttl, draws);
    var m := After(cfg, s, Tries(t, s.rows, draws));
    AfterAppend(cfg, s, Tries(t, s.rows, draws), [Run(t, FINE)]);
    AfterOne(cfg, m, Run(t, FINE));
  }

  /** A step of thread `t` that leaves the table and the slots alone. */
  ghost predicate Turns(s: State, k: State, t: Tid, thread: Thread) {
    t in k.threads && k.threads[t] == thread && k.rows == s.rows && k.sem == s.sem
  }

  lemma SealStep(cfg: Config, s: State, t: Tid, post: Post, nonce: ByteString)
    requires t in s.threads && s.threads[t] == Create(post, 0, Sealing)
    ensures var content := Seal(cfg, Truncate(cfg, post.body), nonce);
      Turns(s, Next(cfg, s, Run(t, Env(false, "", nonce))), t,
            Create(post, 0, if content.None? then Leaving(500, "") else Deciding(content.value)))
  {}

  lemma DecideStep(cfg: Config, s: State, t: Tid, post: Post, content: ByteString)
    requires t in s.threads && s.threads[t] == Create(post, 0, Deciding(content))
    ensures var requested := RequestedTtl(post.ttl);
      Turns(s, Next(cfg, s, Run(t, FINE)), t,
            Create(post, 0, if requested.None? then Leaving(400, "")
                            else Naming(Asked(cfg, post, content), ResolveTtl(cfg.maxTtl, requested.value))))
  {}

  /** The rest of an upload that is sealed. */
  lemma DecideAlone(cfg: Config, s: State, t: Tid, post: Post, content: ByteString, draws: seq<Draw>)
    requires t in s.threads && s.threads[t] == Create(post, 0, Deciding(content)) && s.sem > 0
    requires |draws| == MAX_SLUG_RETRIES
    ensures var ttl := RequestedTtl(post.ttl);
      Posted(s.(sem := s.sem - 1), After(cfg, Next(cfg, s, Run(t, FINE)), Tries(t, s.rows, draws) + [Run(t, FINE)]), t,
             if ttl.None? then (400, "", s.rows)
             else Trying(cfg.backend, s.rows, Asked(cfg, post, content), ResolveTtl(cfg.maxTtl, ttl.value), draws))
  {
    var rest := Tries(t, s.rows, draws) + [Run(t, FINE)];
    var k := Next(cfg, s, Run(t, FINE));
    DecideStep(cfg, s, t, post, content);
    if k.threads[t].cpc.Leaving? {
      TriesMove(t, s.rows, draws);
      assert rest[|rest| - 1] == Run(t, FINE) && Run(t, FINE) in rest;
      LeavesAlone(cfg, k, rest, t);
    } else {
      NamedAlone(cfg, k, t, post, k.threads[t].cpc.row, k.threads[t].cpc.ttl, draws);
    }
  }

  /** The part that holds a slot. */
  lemma UploadAlone(cfg: Config, s: State, t: Tid, post: Post, nonce: ByteString, draws: seq<Draw>)
    requires t in s.threads && s.threads[t] == Create(post, 0, Sealing) && |draws| == MAX_SLUG_RETRIES && s.sem > 0
    ensures Posted(s.(sem := s.sem - 1), After(cfg, s, UploadSteps(t, s.rows, nonce, draws)), t,
                   Uploading(cfg, s.rows, post, nonce, draws))
  {
    var seal, rest := Run(t, Env(false, "", nonce)), [Run(t, FINE)] + (Tries(t, s.rows, draws) + [Run(t, FINE)]);
    var s1 := Next(cfg, s, seal);
    SealStep(cfg, s, t, post, nonce);
    assert UploadSteps(t, s.rows, nonce, draws)[1..] == rest;
    if s1.threads[t].cpc.Leaving? {
      TriesMove(t, s.rows, draws);
      assert rest[0].Run?;
      LeavesAlone(cfg, s1, rest, t);
    } else {
      assert rest[1..] == Tries(t, s.rows, draws) + [Run(t, FINE)];
      DecideAlone(cfg, s1, t, post, s1.threads[t].cpc.content, draws);
    }
  }

  lemma UploadStepsMove(t: Tid, rows: map<Id, Row>, nonce: ByteString, draws: seq<Draw>)
    ensures OnlyMoves(UploadSteps(t, rows, nonce, draws), t)
  {
    TriesMove(t, rows, draws);
  }

  /** Main result: so does its POST what HandleCreatePaste does, down to the slot. */
  lemma PostAlone(cfg: Config, s: State, t: Tid, post: Post, bodyFails: bool, nonce: ByteString, draws: seq<Draw>)
    requires t in s.threads && s.threads[t] == Create(post, 0, Begin) && |draws| == MAX_SLUG_RETRIES
    ensures Posted(s, After(cfg, s, [Run(t, Env(bodyFails, "", []))] + UploadSteps(t, s.rows, nonce, draws)), t,
                   Posting(cfg, s.sem, s.rows, post, bodyFails, nonce, draws))
  {
    var first, rest := Run(t, Env(bodyFails, "", [])), UploadSteps(t, s.rows, nonce, draws);
    var s1 := Next(cfg, s, first);
    AfterAppend(cfg, s, [first], rest);
    AfterOne(cfg, s, first);
    UploadStepsMove(t, s.rows, nonce, draws);
    if s1.threads[t].cpc.Replied? {
      RepliedStays(cfg, s1, rest, t);
    } else {
      UploadAlone(cfg, s1, t, post, nonce, draws);
    }
  }

  /** The lazy DELETE of PeekMeta and Get on SQLite may fail: its error is ignored, and the
      request goes on as if it had not, with the expired row still there. */
  lemma LazyDeleteMayFail(cfg: Config, s: State, t: Tid, slug: Id, nonce: ByteString)
    requires t in s.threads
    requires
      || (s.threads[t].Fetch? && s.threads[t].stage != Taking && s.threads[t].pc == Drop)
      || (s.threads[t].Remove? && s.threads[t].rpc == Guarding(Drop))
    ensures var failed := Next(cfg, s, Run(t, Env(true, slug, nonce)));
      var done := Next(cfg, s, Run(t, Env(false, slug, nonce)));
      && t in failed.threads && t in done.threads && failed.threads[t] == done.threads[t] && failed.rows == s.rows
      && done.rows == Without(s.rows, s.threads[t].id)
  {}
}
