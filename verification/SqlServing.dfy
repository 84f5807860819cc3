/** What a request that runs among any others comes to: it ends; a POST has then given its
    slot back; a fetch's answer rests on a clock reading of its own, and is the paste
    unless that is gone or expired. */
module SqlServing {
  import opened Bytes
  import opened SqlInvariant
  import opened SqlMachine
  import opened SqlSafety
  import opened Ttl
  import opened Wrappers

  /** Thread `t` fails in no statement but those of PeekMeta, which has a fallback. */
  ghost predicate Undisturbed(cfg: Config, s: State, run: seq<Label>, t: Tid)
    decreases |run|
  {
    run == [] || (
      && (run[0].Run? && run[0].t == t && run[0].env.fault && t in s.threads && s.threads[t].Fetch? ==>
           s.threads[t].stage == Peeking)
      && Undisturbed(cfg, Next(cfg, s, run[0]), run[1..], t))
  }

  ghost predicate GoneOrDead(cfg: Config, s: State, id: Id) {
    id in s.ever && (id in s.fate || Dead(cfg, s.ever[id].row, s.now))
  }

  /** A fetch of `id` that came in at `start`. */
  ghost predicate Serving(cfg: Config, s: State, start: int, id: Id, thread: Thread) {
    match thread
    case Fetch(i, _, pc) => i == id && (pc.Take? ==> start <= pc.at)
    case Fetched(i, answer, at) => i == id && start <= at <= s.now && (answer == None ==> GoneOrDead(cfg, s, id))
    case _ => false
  }

  lemma ServingStable(cfg: Config, s: State, s': State, start: int, id: Id, thread: Thread)
    requires Grows(s, s') && Serving(cfg, s, start, id, thread)
    ensures Serving(cfg, s', start, id, thread)
  {
    if id in s.ever { DeadStaysIn(cfg, s, s', id); }
  }

  lemma TakeServes(cfg: Config, s: State, start: int, id: Id, pc: Pc)
    requires Ledger(s) && id in s.ever && start <= s.now && FetchOk(cfg, s, id, Taking, pc) &&
      (pc.Take? ==> start <= pc.at)
    ensures var (call, e) := TakeStep(cfg, s, id, pc);
      Serving(cfg, s, start, id, match call case More(q) => Fetch(id, Taking, q) case Done(a, at) => Fetched(id, a, at))
  {
    if pc.Take? && Dead(cfg, s.ever[id].row, pc.at) { DeadStays(cfg, s.ever[id].row, pc.at, s.now); }
  }

  /** One step of the fetch itself. */
  lemma StepServes(cfg: Config, s: State, start: int, id: Id, stage: Stage, pc: Pc, env: Env)
    requires Ledger(s) && id in s.ever && start <= s.now && FetchOk(cfg, s, id, stage, pc) &&
      (pc.Take? ==> start <= pc.at)
    requires env.fault ==> stage == Peeking
    ensures Serving(cfg, s, start, id, FetchStep(cfg, s, id, stage, pc, env).0)
  {
    if stage == Taking { TakeServes(cfg, s, start, id, pc); } else { ReadStepOk(cfg, s, id, pc); }
  }

  lemma OwnLabelServes(cfg: Config, s: State, env: Env, start: int, id: Id, t: Tid)
    requires Inv(cfg, s) && Lawful(cfg.aead) && Enabled(cfg, s, Run(t, env)) && Undisturbed(cfg, s, [Run(t, env)], t)
    requires id in s.ever && start <= s.now && Serving(cfg, s, start, id, s.threads[t])
    ensures Serving(cfg, s, start, id, ThreadStep(cfg, s, s.threads[t], env).0)
  {
    assert ThreadOk(cfg, s, t, s.threads[t]);
    if s.threads[t].Fetch? { StepServes(cfg, s, start, id, s.threads[t].stage, s.threads[t].pc, env); }
  }

  lemma ThreadAfter(cfg: Config, s: State, l: Label, t: Tid)
    requires Enabled(cfg, s, l) && t in s.threads
    ensures var s' := Next(cfg, s, l);
      && t in s'.threads
      && s'.threads[t] == if l.Run? && l.t == t then ThreadStep(cfg, s, s.threads[t], l.env).0 else s.threads[t]
  {}

  lemma LabelServes(cfg: Config, s: State, l: Label, start: int, id: Id, t: Tid)
    requires Inv(cfg, s) && Lawful(cfg.aead) && Enabled(cfg, s, l) && Undisturbed(cfg, s, [l], t)
    requires id in s.ever && start <= s.now && t in s.threads && Serving(cfg, s, start, id, s.threads[t])
    ensures var s' := Next(cfg, s, l);
      t in s'.threads && Serving(cfg, s', start, id, s'.threads[t]) && Inv(cfg, s') && Grows(s, s')
  {
    var s' := Next(cfg, s, l);
    NextKeeps(cfg, s, l);
    ThreadAfter(cfg, s, l, t);
    if l.Run? && l.t == t { OwnLabelServes(cfg, s, l.env, start, id, t); }
    ServingStable(cfg, s, s', start, id, s'.threads[t]);
  }

  lemma {:induction false} RunServes(cfg: Config, s: State, run: seq<Label>, start: int, id: Id, t: Tid)
    requires Inv(cfg, s) && Lawful(cfg.aead) && Legal(cfg, s, run) && Undisturbed(cfg, s, run, t)
    requires id in s.ever && start <= s.now && t in s.threads && Serving(cfg, s, start, id, s.threads[t])
    ensures var k := After(cfg, s, run); t in k.threads && Serving(cfg, k, start, id, k.threads[t])
    decreases |run|
  {
    if run != [] {
      LabelServes(cfg, s, run[0], start, id, t);
      RunServes(cfg, Next(cfg, s, run[0]), run[1..], start, id, t);
    }
  }

  lemma ReachableFrom(cfg: Config, now: int, before: seq<Label>, run: seq<Label>)
    requires Lawful(cfg.aead) && Legal(cfg, Init(now), before) && Legal(cfg, After(cfg, Init(now), before), run)
    ensures var s := After(cfg, Init(now), before); var k := After(cfg, s, run);
      Inv(cfg, s) && Inv(cfg, k) && Grows(s, k)
  {
    Reachable(cfg, now, before);
    RunsKeep(cfg, After(cfg, Init(now), before), run);
  }

  /** Main result: a fetch of a paste that is in the history when it comes in, among any
      other requests: when it has ended, it answers with the paste as inserted, or
      that is gone or expired; and its answer rests on a clock reading between its
      arrival and now, before the deadline if it serves. */
  lemma FetchAnswers(cfg: Config, now: int, before: seq<Label>, run: seq<Label>, t: Tid, id: Id)
    requires Lawful(cfg.aead) && Legal(cfg, Init(now), before)
    requires var s := After(cfg, Init(now), before);
      && Legal(cfg, s, run) && Undisturbed(cfg, s, run, t)
      && id in s.ever && t in s.threads && s.threads[t] == Fetch(id, Peeking, Select)
    requires var k := After(cfg, After(cfg, Init(now), before), run); t in k.threads && k.threads[t].Fetched?
    ensures var s := After(cfg, Init(now), before); var k := After(cfg, s, run); var o := s.ever[id];
      && s.now <= k.threads[t].at <= k.now
      && (k.threads[t].answer == None ==> GoneOrDead(cfg, k, id))
      && (k.threads[t].answer.Some? ==>
           k.threads[t].answer == Some(o.row) && (o.ttl > 0 ==> k.threads[t].at < o.born + o.ttl))
  {
    var s := After(cfg, Init(now), before);
    var k := After(cfg, s, run);
    ReachableFrom(cfg, now, before, run);
    RunServes(cfg, s, run, s.now, id, t);
    assert ThreadOk(cfg, k, t, k.threads[t]);
    assert OriginOk(cfg, s, id);
    if s.ever[id].ttl > 0 { LivePeriod(cfg.backend, s.ever[id].born, s.ever[id].ttl, k.threads[t].at); }
  }

  /** Nobody else burned the paste and no DELETE took it. */
  ghost predicate LeftTo(s: State, t: Tid, id: Id) {
    id in s.fate ==> s.fate[id].Reaped? || s.fate[id] == Burned(t)
  }

  /** Main result: unless burned for somebody else or deleted, a paste is served to every
      fetch that ends by one second before its deadline, and always when its TTL is
      not positive. */
  lemma ServedUntilDeadline(cfg: Config, now: int, before: seq<Label>, run: seq<Label>, t: Tid, id: Id)
    requires Lawful(cfg.aead) && Legal(cfg, Init(now), before)
    requires var s := After(cfg, Init(now), before);
      && Legal(cfg, s, run) && Undisturbed(cfg, s, run, t)
      && id in s.ever && t in s.threads && s.threads[t] == Fetch(id, Peeking, Select)
    requires var k := After(cfg, After(cfg, Init(now), before), run);
      && t in k.threads && k.threads[t].Fetched? && id in k.ever && LeftTo(k, t, id)
      && (k.ever[id].ttl > 0 ==> k.now <= k.ever[id].born + k.ever[id].ttl - SECOND)
    ensures var k := After(cfg, After(cfg, Init(now), before), run); k.threads[t].answer == Some(k.ever[id].row)
  {
    var s := After(cfg, Init(now), before);
    var k := After(cfg, s, run);
    ReachableFrom(cfg, now, before, run);
    FetchAnswers(cfg, now, before, run, t, id);
    NotDeadYet(cfg, k, id);
    if id in k.fate { assert FateOk(cfg, k, id); }
  }

  lemma NotDeadYet(cfg: Config, k: State, id: Id)
    requires Inv(cfg, k) && id in k.ever && (k.ever[id].ttl > 0 ==> k.now <= k.ever[id].born + k.ever[id].ttl - SECOND)
    ensures !Dead(cfg, k.ever[id].row, k.now) && (id in k.fate ==> !k.fate[id].Reaped?)
  {
    var o := k.ever[id];
    assert OriginOk(cfg, k, id);
    if o.ttl > 0 { LivePeriod(cfg.backend, o.born, o.ttl, k.now); }
    if id in k.fate && k.fate[id].Reaped? {
      assert FateOk(cfg, k, id);
      DeadStays(cfg, o.row, k.fate[id].at, k.now);
    }
  }

  // Every request ends.

  function OwnSteps(run: seq<Label>, t: Tid): nat {
    if run == [] then 0 else (if run[0].Run? && run[0].t == t then 1 else 0) + OwnSteps(run[1..], t)
  }

  /** How many steps a request has at most before it. */
  function Left(thread: Thread): nat {
    match thread
    case Fetch(_, Taking, pc) => if pc.Take? then 1 else 2
    case Fetch(_, Getting(fallback), pc) => ReadLeft(pc) + if fallback then 2 else 0
    case Fetch(_, Peeking, pc) => ReadLeft(pc) + 5
    case Fetched(_, _, _) => 0
    case Remove(_, _, Guarding(pc)) => ReadLeft(pc) + 1
    case Remove(_, _, Erasing) => 1
    case Remove(_, _, Removed(_)) => 0
    case Create(_, saves, cpc) => CreateLeft(saves, cpc)
  }

  function ReadLeft(pc: Pc): nat {
    match pc case Select => 3 case Check(_, _) => 2 case _ => 1
  }

  function CreateLeft(saves: nat, cpc: CreatePc): nat {
    match cpc
    case Begin => TriesLeft(saves) + 4
    case Sealing => TriesLeft(saves) + 3
    case Deciding(_) => TriesLeft(saves) + 2
    case Naming(_, _) => TriesLeft(saves) + 1
    case Saving(_, _, _, _) => TriesLeft(saves)
    case Leaving(_, _) => 1
    case Replied(_, _) => 0
  }

  /** A slug and an INSERT for every try, the first in any case. */
  function TriesLeft(saves: nat): nat {
    if saves < MAX_SLUG_RETRIES then 2 * (MAX_SLUG_RETRIES - saves) else 2
  }

  /** The same request at another step. */
  predicate SameRequest(a: Thread, b: Thread) {
    match a
    case Fetch(id, _, _) => (b.Fetch? || b.Fetched?) && b.id == id
    case Fetched(_, _, _) => b == a
    case Remove(id, known, _) => b.Remove? && b.id == id && b.known == known
    case Create(post, _, _) => b.Create? && b.post == post
  }

  /** Nothing is left to do. */
  predicate Answered(thread: Thread) {
    match thread
    case Fetch(_, _, _) => false
    case Fetched(_, _, _) => true
    case Remove(_, _, rpc) => rpc.Removed?
    case Create(_, _, cpc) => cpc.Replied?
  }

  lemma FetchStepsDown(cfg: Config, s: State, id: Id, stage: Stage, pc: Pc, env: Env)
    ensures var next := FetchStep(cfg, s, id, stage, pc, env).0;
      (next.Fetch? || next.Fetched?) && next.id == id && Left(next) < Left(Fetch(id, stage, pc))
  {}

  lemma StepsDown(cfg: Config, s: State, thread: Thread, env: Env)
    ensures var next := ThreadStep(cfg, s, thread, env).0;
      SameRequest(thread, next) && (if Answered(thread) then next == thread else Left(next) < Left(thread))
  {
    if thread.Fetch? { FetchStepsDown(cfg, s, thread.id, thread.stage, thread.pc, env); }
  }

  lemma {:induction false} LeftRunsOut(cfg: Config, s: State, run: seq<Label>, t: Tid)
    requires Legal(cfg, s, run) && t in s.threads && OwnSteps(run, t) >= Left(s.threads[t])
    ensures var k := After(cfg, s, run);
      t in k.threads && SameRequest(s.threads[t], k.threads[t]) && Answered(k.threads[t])
    decreases |run|
  {
    if run != [] {
      var l := run[0];
      if l.Run? && l.t == t { StepsDown(cfg, s, s.threads[t], l.env); }
      LeftRunsOut(cfg, Next(cfg, s, l), run[1..], t);
    }
  }

  /** Main result: every request ends, whatever fails and whatever the others do: a fetch
      within eight steps of its own, a DELETE within four, a POST within ten. */
  lemma RequestEnds(cfg: Config, s: State, run: seq<Label>, t: Tid)
    requires Legal(cfg, s, run) && t in s.threads && Fresh(cfg, s, s.threads[t])
    requires OwnSteps(run, t) >= if s.threads[t].Fetch? then 8 else if s.threads[t].Remove? then 4 else 10
    ensures var k := After(cfg, s, run);
      t in k.threads && SameRequest(s.threads[t], k.threads[t]) && Answered(k.threads[t])
  {
    LeftRunsOut(cfg, s, run, t);
  }

  /** Main result: so every POST is answered within ten steps of its own after at most
      three INSERTs, and then holds no slot. */
  lemma PostEnds(cfg: Config, now: int, before: seq<Label>, run: seq<Label>, t: Tid, post: Post)
    requires Lawful(cfg.aead) && Legal(cfg, Init(now), before)
    requires var s := After(cfg, Init(now), before);
      Legal(cfg, s, run) && t in s.threads && s.threads[t] == Create(post, 0, Begin) && OwnSteps(run, t) >= 10
    ensures var k := After(cfg, After(cfg, Init(now), before), run);
      && t in k.threads && k.threads[t].Create? && k.threads[t].post == post
      && k.threads[t].cpc.Replied? && k.threads[t].saves <= MAX_SLUG_RETRIES && t !in Holders(k)
      && |Holders(k)| == k.sem
  {
    var s := After(cfg, Init(now), before);
    var k := After(cfg, s, run);
    ReachableFrom(cfg, now, before, run);
    RequestEnds(cfg, s, run, t);
    assert ThreadOk(cfg, k, t, k.threads[t]);
  }
}
