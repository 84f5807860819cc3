/** What a known fetch on Redis that runs among any other requests comes to: it ends, and
    it is answered with the paste unless somebody else took that or it expired. */
module RedisServing {
  import opened RedisMachine
  import opened RedisSafety
  import opened Ttl
  import opened Wrappers

  /** Thread `t` fails in no command but those of PeekMeta, which has a fallback. */
  ghost predicate Undisturbed(protectedOn: bool, s: State, run: seq<Label>, t: Tid)
    decreases |run|
  {
    run == [] || (
      && (run[0] == Run(t, true) && t in s.threads && s.threads[t].Fetch? ==> s.threads[t].fpc == Peeking)
      && Undisturbed(protectedOn, Next(protectedOn, s, run[0]), run[1..], t))
  }

  /** The deadline its Save gave the paste has passed. */
  predicate Lapsed(s: State, id: Id) {
    && id in s.filled && id in s.ever
    && Deadline(s.filled[id], s.ever[id].ttl).Some? && s.now >= Deadline(s.filled[id], s.ever[id].ttl).value
  }

  /** With a TTL of a second or more that is no sooner than a second before it is over
      and no later than when it is over; a shorter one counts as a second. */
  lemma LapsedMeans(s: State, id: Id)
    requires id in s.filled && id in s.ever
    ensures var filled, ttl := s.filled[id], s.ever[id].ttl;
      && (Lapsed(s, id) ==> ttl > 0 && !WellBefore(filled, ttl, s.now))
      && (ttl > 0 && s.now >= filled + Longer(ttl, SECOND) ==> Lapsed(s, id))
  {
    DeadlineMeans(s.filled[id], s.ever[id].ttl);
  }

  function Longer(a: int, b: int): int { if a > b then a else b }

  /** Early enough to be served for sure. */
  predicate WellBefore(filled: int, ttl: int, now: int) {
    ttl > 0 ==> now <= filled + ttl - SECOND || (ttl < SECOND && now < filled + SECOND)
  }

  predicate BurnedBy(s: State, id: Id, t: Tid) {
    id in s.fate && s.fate[id] == Burned(t)
  }

  /** Somebody else took the paste, or it expired. */
  predicate Missed(s: State, id: Id, t: Tid) {
    (id in s.fate && s.fate[id] != Burned(t)) || Lapsed(s, id)
  }

  /** A known fetch of `id` under way, or what it came to. */
  ghost predicate Serving(s: State, t: Tid, id: Id, thread: Thread) {
    && thread.Fetch? && thread.id == id && thread.known && id in s.filled && id in s.ever
    && (!thread.fpc.Fetched? ==> !BurnedBy(s, id, t))
    && (thread.fpc == Fetched(None) ==> Missed(s, id, t))
  }

  lemma EmptyIsMissed(s: State, id: Id, t: Tid)
    requires HashOk(s, id) && id in s.filled && Live(s, id) == EMPTY_HASH && !BurnedBy(s, id, t)
    ensures Missed(s, id, t)
  {}

  lemma WholeOrEmpty(s: State, id: Id)
    requires HashOk(s, id) && id in s.filled
    ensures PasteOf(Live(s, id)) == None ==> Live(s, id) == EMPTY_HASH
    ensures Live(s, id).meta == None ==> Live(s, id) == EMPTY_HASH
  {
    LiveIs(s, id);
  }

  /** One step of the fetch itself. */
  lemma StepServes(s: State, t: Tid, id: Id, fpc: FetchPc, fault: bool)
    requires HashOk(s, id) && Serving(s, t, id, Fetch(id, true, fpc)) && (fault ==> fpc == Peeking || fpc.Fetched?)
    ensures var (next, e) := FetchStep(s, id, true, fpc, fault); Serving(Apply(s, t, e), t, id, next)
  {
    WholeOrEmpty(s, id);
    if !fpc.Fetched? && Live(s, id) == EMPTY_HASH { EmptyIsMissed(s, id, t); }
  }

  lemma MissedStays(s: State, s': State, id: Id, t: Tid)
    requires Grows(s, s', id) && Missed(s, id, t)
    ensures Missed(s', id, t)
  {}

  /** Steps of other requests: a fate they give is their own. */
  lemma OthersServe(protectedOn: bool, s: State, l: Label, t: Tid, id: Id)
    requires Grows(s, Next(protectedOn, s, l), id) && Enabled(s, l) && !(l.Run? && l.t == t)
    requires t in s.threads && Serving(s, t, id, s.threads[t])
    ensures var s' := Next(protectedOn, s, l); t in s'.threads && Serving(s', t, id, s'.threads[t])
  {
    var s' := Next(protectedOn, s, l);
    assert s'.threads[t] == s.threads[t];
    if Missed(s, id, t) { MissedStays(s, s', id, t); }
    if l.Run? && !BurnedBy(s, id, t) { NotOurs(s, l.t, ThreadStep(protectedOn, s, s.threads[l.t], l.fault).1, t, id); }
  }

  lemma NotOurs(s: State, u: Tid, e: Effect, t: Tid, id: Id)
    requires u != t && !BurnedBy(s, id, t)
    ensures !BurnedBy(Apply(s, u, e), id, t)
  {}

  lemma LabelServes(protectedOn: bool, s: State, l: Label, t: Tid, id: Id)
    requires Inv(protectedOn, s, id) && DeletesKnown(s, id) && Enabled(s, l) && Undisturbed(protectedOn, s, [l], t)
    requires t in s.threads && Serving(s, t, id, s.threads[t])
    ensures var s' := Next(protectedOn, s, l);
      t in s'.threads && Serving(s', t, id, s'.threads[t]) && Inv(protectedOn, s', id)
  {
    NextKeeps(protectedOn, s, l, id);
    if l.Run? && l.t == t {
      StepServes(s, t, id, s.threads[t].fpc, l.fault);
      OwnLabel(protectedOn, s, l, t);
    } else {
      OthersServe(protectedOn, s, l, t, id);
    }
  }

  lemma OwnLabel(protectedOn: bool, s: State, l: Label, t: Tid)
    requires t in s.threads && s.threads[t].Fetch? && l.Run? && l.t == t
    ensures var th := s.threads[t]; var (next, e) := FetchStep(s, th.id, th.known, th.fpc, l.fault);
      var s' := Next(protectedOn, s, l); var m := Apply(s, t, e);
      && t in s'.threads && s'.threads[t] == next
      && s'.fate == m.fate && s'.filled == m.filled && s'.ever == m.ever && s'.now == m.now
  {}

  lemma {:induction false} RunServes(protectedOn: bool, s: State, run: seq<Label>, t: Tid, id: Id)
    requires Inv(protectedOn, s, id) && Legal(protectedOn, s, run) && DeletesKnown(After(protectedOn, s, run), id)
    requires Undisturbed(protectedOn, s, run, t) && t in s.threads && Serving(s, t, id, s.threads[t])
    ensures var k := After(protectedOn, s, run);
      t in k.threads && Serving(k, t, id, k.threads[t]) && Inv(protectedOn, k, id)
    decreases |run|
  {
    if run != [] {
      DeletesAllAlong(protectedOn, s, run, id);
      LabelServes(protectedOn, s, run[0], t, id);
      RunServes(protectedOn, Next(protectedOn, s, run[0]), run[1..], t, id);
    }
  }

  /** A fetch of `id` that comes in known after `before`, and runs on among `run`. */
  ghost predicate Comes(protectedOn: bool, now: int, before: seq<Label>, run: seq<Label>, t: Tid, id: Id) {
    var s := After(protectedOn, Init(now), before);
    && Legal(protectedOn, Init(now), before) && Enabled(s, Arrive(t, Fetch(id, true, Peeking)))
    && var s1 := Next(protectedOn, s, Arrive(t, Fetch(id, true, Peeking)));
    && Legal(protectedOn, s1, run) && Undisturbed(protectedOn, s1, run, t)
    && DeletesKnown(After(protectedOn, s1, run), id)
  }

  ghost function Later(protectedOn: bool, now: int, before: seq<Label>, run: seq<Label>, t: Tid, id: Id): State {
    var s := After(protectedOn, Init(now), before);
    After(protectedOn, Next(protectedOn, s, Arrive(t, Fetch(id, true, Peeking))), run)
  }

  /** A thread that is not there has burned nothing. */
  ghost predicate FatesRooted(s: State) {
    forall id :: id in s.fate && s.fate[id].Burned? ==> s.fate[id].reader in s.threads
  }

  lemma {:induction false} FatesRootedAlong(protectedOn: bool, s: State, run: seq<Label>)
    requires FatesRooted(s) && Legal(protectedOn, s, run)
    ensures FatesRooted(After(protectedOn, s, run))
    decreases |run|
  {
    if run != [] {
      NextFatesRooted(protectedOn, s, run[0]);
      FatesRootedAlong(protectedOn, Next(protectedOn, s, run[0]), run[1..]);
    }
  }

  lemma NextFatesRooted(protectedOn: bool, s: State, l: Label)
    requires FatesRooted(s) && Enabled(s, l)
    ensures FatesRooted(Next(protectedOn, s, l))
  {
    var s' := Next(protectedOn, s, l);
    forall id | id in s'.fate && s'.fate[id].Burned? ensures s'.fate[id].reader in s'.threads {
      if l.Run? { FateIsMine(s, l.t, ThreadStep(protectedOn, s, s.threads[l.t], l.fault).1, id); }
    }
  }

  lemma FateIsMine(s: State, t: Tid, e: Effect, id: Id)
    requires id in Apply(s, t, e).fate && Apply(s, t, e).fate[id].Burned?
    ensures Apply(s, t, e).fate[id].reader == t || (id in s.fate && s.fate[id] == Apply(s, t, e).fate[id])
  {}

  lemma ArrivalServes(protectedOn: bool, now: int, before: seq<Label>, run: seq<Label>, t: Tid, id: Id)
    requires Comes(protectedOn, now, before, run, t, id)
    ensures var s1 := Next(protectedOn, After(protectedOn, Init(now), before), Arrive(t, Fetch(id, true, Peeking)));
      Inv(protectedOn, s1, id) && Serving(s1, t, id, s1.threads[t])
  {
    var s, l := After(protectedOn, Init(now), before), Arrive(t, Fetch(id, true, Peeking));
    var s1 := Next(protectedOn, s, l);
    DeletesAllAlong(protectedOn, s1, run, id);
    DeletesBefore(protectedOn, s, l, id);
    Reachable(protectedOn, now, before, id);
    NextKeeps(protectedOn, s, l, id);
    PublishedIsFilled(protectedOn, s, id);
    FatesRootedAlong(protectedOn, Init(now), before);
  }

  /** Main result: a known fetch among any other requests, once it has ended, answers
      with the paste as saved, or somebody else took that or it expired, and then its
      TTL was over but for less than a second. */
  lemma FetchAnswers(protectedOn: bool, now: int, before: seq<Label>, run: seq<Label>, t: Tid, id: Id,
                     answer: Option<Paste>)
    requires Comes(protectedOn, now, before, run, t, id)
    requires var k := Later(protectedOn, now, before, run, t, id);
      t in k.threads && k.threads[t] == Fetch(id, true, Fetched(answer))
    ensures var k := Later(protectedOn, now, before, run, t, id);
      && id in k.ever && id in k.filled
      && (answer == Some(k.ever[id].paste) || (answer == None && Missed(k, id, t)))
      && (Lapsed(k, id) ==> k.ever[id].ttl > 0 && !WellBefore(k.filled[id], k.ever[id].ttl, k.now))
  {
    var s1 := Next(protectedOn, After(protectedOn, Init(now), before), Arrive(t, Fetch(id, true, Peeking)));
    var k := Later(protectedOn, now, before, run, t, id);
    ArrivalServes(protectedOn, now, before, run, t, id);
    RunServes(protectedOn, s1, run, t, id);
    LapsedMeans(k, id);
    assert ThreadOk(protectedOn, k, t, k.threads[t]);
  }

  /** Main result: unless somebody else took it, a published paste is served to every
      known fetch that ends by a second before its TTL is over, and always when it has
      none; a TTL below a second counts as one. */
  lemma ServedUntilDeadline(protectedOn: bool, now: int, before: seq<Label>, run: seq<Label>, t: Tid, id: Id,
                            answer: Option<Paste>)
    requires Comes(protectedOn, now, before, run, t, id)
    requires var k := Later(protectedOn, now, before, run, t, id);
      && t in k.threads && k.threads[t] == Fetch(id, true, Fetched(answer))
      && (id in k.fate ==> k.fate[id] == Burned(t))
      && (id in k.filled && id in k.ever ==> WellBefore(k.filled[id], k.ever[id].ttl, k.now))
    ensures var k := Later(protectedOn, now, before, run, t, id); id in k.ever && answer == Some(k.ever[id].paste)
  {
    FetchAnswers(protectedOn, now, before, run, t, id, answer);
  }

  // Never late.

  /** The TTL of a filled paste is over. */
  predicate TooLate(s: State, id: Id) {
    && id in s.filled && id in s.ever
    && s.ever[id].ttl > 0 && s.now >= s.filled[id] + Longer(s.ever[id].ttl, SECOND)
  }

  /** A fetch that has not been answered with anything. */
  predicate Unserved(s: State, t: Tid, id: Id) {
    && t in s.threads && s.threads[t].Fetch? && s.threads[t].id == id
    && (s.threads[t].fpc.Fetched? ==> s.threads[t].fpc.answer == None)
  }

  lemma LateLabel(protectedOn: bool, s: State, l: Label, t: Tid, id: Id)
    requires Inv(protectedOn, s, id) && Grows(s, Next(protectedOn, s, l), id) && Enabled(s, l)
    requires TooLate(s, id) && Unserved(s, t, id)
    ensures TooLate(Next(protectedOn, s, l), id) && Unserved(Next(protectedOn, s, l), t, id)
  {
    LapsedMeans(s, id);
    LiveIs(s, id);
  }

  lemma {:induction false} LateOn(protectedOn: bool, s: State, run: seq<Label>, t: Tid, id: Id)
    requires Inv(protectedOn, s, id) && Legal(protectedOn, s, run) && DeletesKnown(After(protectedOn, s, run), id)
    requires TooLate(s, id) && Unserved(s, t, id)
    ensures Unserved(After(protectedOn, s, run), t, id)
    decreases |run|
  {
    if run != [] {
      DeletesAllAlong(protectedOn, s, run, id);
      NextKeeps(protectedOn, s, run[0], id);
      LateLabel(protectedOn, s, run[0], t, id);
      LateOn(protectedOn, Next(protectedOn, s, run[0]), run[1..], t, id);
    }
  }

  /** Main result: once its TTL is over no paste is handed to any reader, known or not,
      however early that came in. */
  lemma NeverServedLate(protectedOn: bool, now: int, before: seq<Label>, run: seq<Label>, t: Tid, id: Id)
    requires Legal(protectedOn, Init(now), before)
    requires var s := After(protectedOn, Init(now), before);
      && Legal(protectedOn, s, run) && DeletesKnown(After(protectedOn, s, run), id)
      && TooLate(s, id) && Unserved(s, t, id)
    ensures Unserved(After(protectedOn, After(protectedOn, Init(now), before), run), t, id)
  {
    var s := After(protectedOn, Init(now), before);
    DeletesAllAlong(protectedOn, s, run, id);
    Reachable(protectedOn, now, before, id);
    LateOn(protectedOn, s, run, t, id);
  }

  // Every request ends.

  function OwnSteps(run: seq<Label>, t: Tid): nat {
    if run == [] then 0 else (if run[0].Run? && run[0].t == t then 1 else 0) + OwnSteps(run[1..], t)
  }

  /** How many steps a request has at most before it. */
  function Left(thread: Thread): nat {
    match thread
    case Fetch(_, _, Peeking) => 3
    case Fetch(_, _, Getting(fallback)) => if fallback then 2 else 1
    case Fetch(_, _, Taking) => 1
    case Save(_, _, _, Gate) => 2
    case Save(_, _, _, Fill) => 1
    case Remove(_, _, Guarding) => 2
    case Remove(_, _, Erasing) => 1
    case _ => 0
  }

  /** The same request at another step. */
  predicate SameRequest(a: Thread, b: Thread) {
    match a
    case Save(id, paste, ttl, _) => b.Save? && b.id == id && b.paste == paste && b.ttl == ttl
    case Fetch(id, known, _) => b.Fetch? && b.id == id && b.known == known
    case Remove(id, known, _) => b.Remove? && b.id == id && b.known == known
  }

  /** Nothing is left to do. */
  predicate Answered(thread: Thread) {
    match thread
    case Save(_, _, _, spc) => spc.Saved?
    case Fetch(_, _, fpc) => fpc.Fetched?
    case Remove(_, _, rpc) => rpc.Removed?
  }

  lemma StepsDown(protectedOn: bool, s: State, thread: Thread, fault: bool)
    ensures var next := ThreadStep(protectedOn, s, thread, fault).0;
      SameRequest(thread, next) && (if Answered(thread) then next == thread else Left(next) < Left(thread))
  {}

  lemma {:induction false} LeftRunsOut(protectedOn: bool, s: State, run: seq<Label>, t: Tid)
    requires Legal(protectedOn, s, run) && t in s.threads && OwnSteps(run, t) >= Left(s.threads[t])
    ensures var k := After(protectedOn, s, run);
      t in k.threads && SameRequest(s.threads[t], k.threads[t]) && Answered(k.threads[t])
    decreases |run|
  {
    if run != [] {
      var l := run[0];
      if l.Run? && l.t == t { StepsDown(protectedOn, s, s.threads[t], l.fault); }
      LeftRunsOut(protectedOn, Next(protectedOn, s, l), run[1..], t);
    }
  }

  /** Main result: a fetch ends within three steps of its own, a Save and a DELETE within
      two, whatever fails and whatever the others do. */
  lemma RequestEnds(protectedOn: bool, s: State, run: seq<Label>, t: Tid)
    requires Legal(protectedOn, s, run) && t in s.threads && Fresh(s, s.threads[t])
    requires OwnSteps(run, t) >= if s.threads[t].Fetch? then 3 else 2
    ensures var k := After(protectedOn, s, run);
      t in k.threads && SameRequest(s.threads[t], k.threads[t]) && Answered(k.threads[t])
  {
    LeftRunsOut(protectedOn, s, run, t);
  }

  /** Main result: time takes a published paste from view at its deadline and not before:
      in the last second of its TTL, or after a second when that is shorter. */
  lemma TimeOnlyExpires(protectedOn: bool, now: int, run: seq<Label>, to: int, id: Id)
    requires RunFor(protectedOn, now, run, id) && Enabled(After(protectedOn, Init(now), run), Tick(to))
    ensures var s := After(protectedOn, Init(now), run); var k := Next(protectedOn, s, Tick(to));
      && Shown(k, id) == (if Lapsed(k, id) then None else Shown(s, id))
      && (id in k.filled && id in k.ever && WellBefore(k.filled[id], k.ever[id].ttl, to) ==>
            Shown(k, id) == Shown(s, id))
      && (TooLate(k, id) ==> Shown(k, id) == None)
  {
    Reachable(protectedOn, now, run, id);
    if id in Next(protectedOn, After(protectedOn, Init(now), run), Tick(to)).filled {
      LapsedMeans(Next(protectedOn, After(protectedOn, Init(now), run), Tick(to)), id);
    }
  }
}
