/** The paste server on a SQL backend as a state machine: one step is one SQL
    statement, one clock reading, one tick of the cleanup loop, or the clock moving.
    Requests are small programs over these steps and interleave freely. */
module SqlMachine {
  import opened Wrappers
  import opened Bytes
  import opened Ttl

  type Id = string
  type Tid = nat

  /** A row of the pastes table. */
  datatype Row = Row(
    content: ByteString, burn: bool, encrypted: bool, e2e: bool, prot: bool, lang: string, expireAt: Option<int>)

  datatype Config = Config(
    backend: Backend, protectedOn: bool, capacity: nat, maxPasteSize: nat, maxTtl: int,
    defaultBurn: bool, key: Option<ByteString>, aead: Aead)

  /** The ttl query parameter: absent, not an int64, or a number of seconds. */
  datatype TtlParam = Absent | Malformed | Given(n: int)

  /** A POST; `burn` is the burn parameter, absent or compared with "true". */
  datatype Post = Post(
    body: ByteString, contentLength: int, burn: Option<bool>, ttl: TtlParam, prot: bool, e2e: bool, lang: string)

  /** Where a storage call stands. `seen` remembers, for the proofs, what the
      TTL view held for the id when the row was selected or the clock was read. */
  datatype Pc =
    | Select
    | Check(row: Row, seen: Option<Row>)
    | Drop
    | Clock
    | Take(at: int, seen: Option<Row>)

  /** fetchPaste: PeekMeta, then Get (after a failed or empty peek: `fallback`) or GetAndDelete. */
  datatype Stage = Peeking | Getting(fallback: bool) | Taking

  datatype RemovePc = Guarding(pc: Pc) | Erasing | Removed(status: int)

  datatype CreatePc =
    | Begin
    | Sealing
    | Deciding(content: ByteString)
    | Naming(row: Row, ttl: int)
    | Saving(id: Id, row: Row, ttl: int, born: int)
    | Leaving(status: int, id: Id)
    | Replied(status: int, id: Id)

  /** A request being served. `known` says whether the id had been returned by a
      201 when the DELETE came in; `saves` counts the INSERTs tried. */
  datatype Thread =
    | Fetch(id: Id, stage: Stage, pc: Pc)
    | Fetched(id: Id, answer: Option<Row>, at: int)
    | Remove(id: Id, known: bool, rpc: RemovePc)
    | Create(post: Post, saves: nat, cpc: CreatePc)

  /** Who inserted a row, when, and with what TTL. */
  datatype Origin = Origin(row: Row, owner: Tid, born: int, ttl: int)

  /** What became of an inserted row that is gone. */
  datatype Fate = Burned(reader: Tid) | Deleted(deleter: Tid, at: int) | Reaped(at: int)

  datatype State = State(
    now: int, rows: map<Id, Row>, sem: nat, threads: map<Tid, Thread>,
    ever: map<Id, Origin>, fate: map<Id, Fate>)

  /** What a thread step does to the shared state. */
  datatype Effect =
    | Nothing
    | Reap(id: Id)
    | Burn(id: Id)
    | Erase(id: Id)
    | Insert(id: Id, row: Row, born: int, ttl: int)
    | Acquire
    | Release

  /** What a step takes from outside: whether the statement failed, the next slug,
      the next nonce. */
  datatype Env = Env(fault: bool, slug: Id, nonce: ByteString)

  datatype Label = Tick(to: int) | Sweep | Arrive(t: Tid, thread: Thread) | Run(t: Tid, env: Env)

  function Init(now: int): State {
    State(now, map[], 0, map[], map[], map[])
  }

  predicate Dead(cfg: Config, row: Row, now: int) {
    Expired(cfg.backend, row.expireAt, now)
  }

  /** The TTL view: the row of an id, when it is there and not expired. */
  function View(cfg: Config, s: State, id: Id): Option<Row> {
    if id in s.rows && !Dead(cfg, s.rows[id], s.now) then Some(s.rows[id]) else None
  }

  // Storage calls.

  /** What a call does next: another step, or its answer with the clock reading it rests on. */
  datatype Call = More(pc: Pc) | Done(answer: Option<Row>, at: int)

  /** One step of PeekMeta or Get; PostgreSQL filters in the SELECT itself. */
  function ReadStep(cfg: Config, s: State, id: Id, pc: Pc): (Call, Effect) {
    match pc
    case Select =>
      if id !in s.rows then (Done(None, s.now), Nothing)
      else if cfg.backend == Postgres then (Done(View(cfg, s, id), s.now), Nothing)
      else (More(Check(s.rows[id], View(cfg, s, id))), Nothing)
    case Check(row, _) =>
      if Dead(cfg, row, s.now) then (More(Drop), Nothing) else (Done(Some(row), s.now), Nothing)
    case Drop => (Done(None, s.now), Reap(id))
    case _ => (Done(None, s.now), Nothing)
  }

  /** One step of GetAndDelete. SQLite is handed a clock reading that may be old
      when the statement runs; PostgreSQL uses its own. */
  function TakeStep(cfg: Config, s: State, id: Id, pc: Pc): (Call, Effect) {
    match pc
    case Take(at, _) =>
      var t := if cfg.backend == Postgres then s.now else at;
      if id in s.rows && !Dead(cfg, s.rows[id], t) then (Done(Some(s.rows[id]), t), Burn(id))
      else (Done(None, t), Nothing)
    case _ => (More(Take(s.now, View(cfg, s, id))), Nothing)
  }

  // Handlers.

  /** fetchPaste after a storage call has answered. */
  function FetchNext(id: Id, stage: Stage, answer: Option<Row>, at: int): Thread {
    match stage
    case Peeking =>
      if answer == None then Fetch(id, Getting(true), Select)
      else if answer.value.burn then Fetch(id, Taking, Clock)
      else Fetch(id, Getting(false), Select)
    case Getting(fallback) =>
      if answer.Some? && fallback && answer.value.burn then Fetch(id, Taking, Clock)
      else Fetched(id, answer, at)
    case Taking => Fetched(id, answer, at)
  }

  function FetchStep(cfg: Config, s: State, id: Id, stage: Stage, pc: Pc, env: Env): (Thread, Effect) {
    if env.fault && pc != Clock && !pc.Check? then
      // A failed statement: PeekMeta falls back to Get, the others give up; the
      // lazy DELETE's error is ignored.
      (if stage == Peeking && pc != Drop then Fetch(id, Getting(true), Select)
       else FetchNext(id, stage, None, s.now), Nothing)
    else
      var (call, effect) := if stage == Taking then TakeStep(cfg, s, id, pc) else ReadStep(cfg, s, id, pc);
      match call
      case More(next) => (Fetch(id, stage, next), effect)
      case Done(answer, at) => (FetchNext(id, stage, answer, at), effect)
  }

  /** handleDelete: peek first when the protected feature is on. */
  function RemoveStep(cfg: Config, s: State, id: Id, known: bool, rpc: RemovePc, env: Env): (Thread, Effect) {
    match rpc
    case Guarding(pc) =>
      if env.fault && pc == Select then (Remove(id, known, Removed(500)), Nothing)
      else if env.fault && pc == Drop then (Remove(id, known, Erasing), Nothing)
      else
        var (call, effect) := ReadStep(cfg, s, id, pc);
        (match call
         case More(next) => Remove(id, known, Guarding(next))
         case Done(answer, _) =>
           if answer.Some? && answer.value.prot then Remove(id, known, Removed(403)) else Remove(id, known, Erasing),
         effect)
    case Erasing =>
      if env.fault then (Remove(id, known, Removed(500)), Nothing)
      else (Remove(id, known, Removed(200)), Erase(id))
    case Removed(_) => (Remove(id, known, rpc), Nothing)
  }

  /** The bytes io.LimitReader lets through. */
  function Truncate(cfg: Config, body: ByteString): (r: ByteString)
    ensures r <= body && |r| <= cfg.maxPasteSize && (r == body || |r| == cfg.maxPasteSize)
  {
    if |body| <= cfg.maxPasteSize then body else body[..cfg.maxPasteSize]
  }

  /** The stored content of a body. */
  function Seal(cfg: Config, body: ByteString, nonce: ByteString): Option<ByteString> {
    match cfg.key
    case None => Some(body)
    case Some(key) => if |nonce| == NONCE_SIZE then Some(Encrypt(cfg.aead, key, nonce, body)) else None
  }

  function RequestedTtl(p: TtlParam): Option<int> {
    match p
    case Absent => Some(0)
    case Malformed => None
    case Given(n) => if n < 0 then None else Some(Seconds(n))
  }

  /** The row a POST asks for, before its expiry is known. */
  function Asked(cfg: Config, post: Post, content: ByteString): Row {
    Row(content,
        match post.burn { case None => cfg.defaultBurn case Some(b) => b },
        cfg.key.Some?, post.e2e, cfg.protectedOn && post.prot,
        if post.lang == "" then "text" else post.lang, None)
  }

  const MAX_SLUG_RETRIES := 3

  /** handleCreatePaste. A slot is taken after the body is read and given back
      once the reply is written, whatever the reply. */
  function CreateStep(cfg: Config, s: State, post: Post, saves: nat, cpc: CreatePc, env: Env): (Thread, Effect) {
    match cpc
    case Begin =>
      if post.contentLength > cfg.maxPasteSize then (Create(post, saves, Replied(413, "")), Nothing)
      else if env.fault then (Create(post, saves, Replied(500, "")), Nothing)
      else if |Truncate(cfg, post.body)| == 0 then (Create(post, saves, Replied(400, "")), Nothing)
      else if s.sem < cfg.capacity then (Create(post, saves, Sealing), Acquire)
      else (Create(post, saves, Replied(503, "")), Nothing)
    case Sealing =>
      (match Seal(cfg, Truncate(cfg, post.body), env.nonce)
       case None => Create(post, saves, Leaving(500, ""))
       case Some(content) => Create(post, saves, Deciding(content)), Nothing)
    case Deciding(content) =>
      (match RequestedTtl(post.ttl)
       case None => Create(post, saves, Leaving(400, ""))
       case Some(requested) =>
         Create(post, saves, Naming(Asked(cfg, post, content), ResolveTtl(cfg.maxTtl, requested))), Nothing)
    case Naming(row, ttl) =>
      if env.fault then (Create(post, saves, Leaving(500, "")), Nothing)
      else (Create(post, saves, Saving(env.slug, row.(expireAt := ExpireAt(cfg.backend, s.now, ttl)), ttl, s.now)),
        Nothing)
    case Saving(id, row, ttl, born) =>
      if env.fault then (Create(post, saves + 1, Leaving(500, "")), Nothing)
      else if id !in s.rows then (Create(post, saves + 1, Leaving(201, id)), Insert(id, row, born, ttl))
      else if saves + 1 < MAX_SLUG_RETRIES then (Create(post, saves + 1, Naming(row.(expireAt := None), ttl)), Nothing)
      else (Create(post, saves + 1, Leaving(500, "")), Nothing)
    case Leaving(status, id) => (Create(post, saves, Replied(status, id)), Release)
    case Replied(_, _) => (Create(post, saves, cpc), Nothing)
  }

  function ThreadStep(cfg: Config, s: State, thread: Thread, env: Env): (Thread, Effect) {
    match thread
    case Fetch(id, stage, pc) => FetchStep(cfg, s, id, stage, pc, env)
    case Fetched(_, _, _) => (thread, Nothing)
    case Remove(id, known, rpc) => RemoveStep(cfg, s, id, known, rpc, env)
    case Create(post, saves, cpc) => CreateStep(cfg, s, post, saves, cpc, env)
  }

  // Shared state.

  function Without(rows: map<Id, Row>, id: Id): map<Id, Row> {
    map i | i in rows && i != id :: rows[i]
  }

  /** A row leaves the table and its fate is noted; nothing happens to an absent id. */
  function Gone(s: State, id: Id, f: Fate): State {
    if id in s.rows then s.(rows := Without(s.rows, id), fate := s.fate[id := f]) else s
  }

  function Apply(s: State, t: Tid, e: Effect): State {
    match e
    case Nothing => s
    case Reap(id) => Gone(s, id, Reaped(s.now))
    case Burn(id) => Gone(s, id, Burned(t))
    case Erase(id) => Gone(s, id, Deleted(t, s.now))
    case Insert(id, row, born, ttl) => s.(rows := s.rows[id := row], ever := s.ever[id := Origin(row, t, born, ttl)])
    case Acquire => s.(sem := s.sem + 1)
    case Release => s.(sem := if s.sem == 0 then 0 else s.sem - 1)
  }

  /** DELETE ... WHERE expire_at < now. */
  function SweepRows(cfg: Config, s: State): State {
    var swept := set id | id in s.rows && Sweepable(cfg.backend, s.rows[id].expireAt, s.now);
    s.(rows := map id | id in s.rows && id !in swept :: s.rows[id],
       fate := s.fate + map id | id in swept :: Reaped(s.now))
  }

  /** A POST that has answered 201 with this id. */
  predicate Returned201(thread: Thread, id: Id) {
    thread.Create? && (thread.cpc == Leaving(201, id) || thread.cpc == Replied(201, id))
  }

  /** Ids a client can have learned: some POST returned them. */
  predicate Published(s: State, id: Id) {
    exists t :: t in s.threads && Returned201(s.threads[t], id)
  }

  /** How a request starts. */
  predicate Fresh(cfg: Config, s: State, thread: Thread) {
    match thread
    case Fetch(_, stage, pc) => stage == Peeking && pc == Select
    case Fetched(_, _, _) => false
    case Remove(id, known, rpc) =>
      known == Published(s, id) && rpc == if cfg.protectedOn then Guarding(Select) else Erasing
    case Create(_, saves, cpc) => saves == 0 && cpc == Begin
  }

  /** The environment: the clock never goes back, requests come in at their first
      step, and the slug generator never returns to an id whose paste is gone. */
  predicate Enabled(cfg: Config, s: State, l: Label) {
    match l
    case Tick(to) => s.now <= to
    case Sweep => true
    case Arrive(t, thread) => t !in s.threads && Fresh(cfg, s, thread)
    case Run(t, _) => t in s.threads && !Recycles(s, s.threads[t])
  }

  /** The INSERT about to run would bring back the id of a paste that is gone. */
  predicate Recycles(s: State, thread: Thread) {
    thread.Create? && thread.cpc.Saving? && thread.cpc.id in s.ever && thread.cpc.id !in s.rows
  }

  function Next(cfg: Config, s: State, l: Label): State {
    match l
    case Tick(to) => s.(now := to)
    case Sweep => SweepRows(cfg, s)
    case Arrive(t, thread) => s.(threads := s.threads[t := thread])
    case Run(t, env) =>
      if t !in s.threads then s else
        var (thread, effect) := ThreadStep(cfg, s, s.threads[t], env);
        Apply(s, t, effect).(threads := s.threads[t := thread])
  }

  /** The state after a run of labels. */
  function After(cfg: Config, s: State, run: seq<Label>): State
    decreases |run|
  {
    if run == [] then s else After(cfg, Next(cfg, s, run[0]), run[1..])
  }

  predicate Legal(cfg: Config, s: State, run: seq<Label>)
    decreases |run|
  {
    run == [] || (Enabled(cfg, s, run[0]) && Legal(cfg, Next(cfg, s, run[0]), run[1..]))
  }
}
