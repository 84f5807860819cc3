/** The invariant of the SQL machine and the proof that every step keeps it. */
module SqlInvariant {
  import opened Wrappers
  import opened Bytes
  import opened Ttl
  import opened SqlMachine

  /** decryptIfNeeded on a stored row. */
  function Open(cfg: Config, row: Row): Option<ByteString> {
    if row.encrypted && cfg.key.Some? then Decrypt(cfg.aead, cfg.key.value, row.content) else Some(row.content)
  }

  /** `row` is what `post` asks for, with some sealed form of its body as content. */
  ghost predicate AskedFor(cfg: Config, post: Post, row: Row) {
    && Open(cfg, row) == Some(Truncate(cfg, post.body))
    && row.burn == (if post.burn.Some? then post.burn.value else cfg.defaultBurn)
    && row.encrypted == cfg.key.Some? && row.e2e == post.e2e
    && row.prot == (cfg.protectedOn && post.prot)
    && row.lang == (if post.lang == "" then "text" else post.lang)
  }

  ghost predicate TtlFor(cfg: Config, post: Post, ttl: int) {
    RequestedTtl(post.ttl).Some? && ttl == ResolveTtl(cfg.maxTtl, RequestedTtl(post.ttl).value)
  }

  /** In plain arithmetic, up to the int64 limit of the nanosecond count: without a maximum
      what was asked for, or nothing; with one, that within it and the maximum otherwise. */
  ghost predicate TtlAsAsked(maxTtl: int, p: TtlParam, ttl: int) {
    && !p.Malformed? && (p.Given? ==> p.n >= 0)
    && (p.Absent? ==> ttl == maxTtl)
    && (p.Given? && p.n <= 9223372036 && maxTtl == 0 ==> ttl == p.n * SECOND)
    && (p.Given? && p.n <= 9223372036 && maxTtl > 0 ==>
          ttl == if 0 < p.n * SECOND <= maxTtl then p.n * SECOND else maxTtl)
  }

  lemma TtlForMeans(cfg: Config, post: Post, ttl: int)
    requires TtlFor(cfg, post, ttl) && cfg.maxTtl >= 0
    ensures TtlAsAsked(cfg.maxTtl, post.ttl, ttl)
  {
    if post.ttl.Given? && post.ttl.n <= 9223372036 {
      ResolvedExactly(cfg.maxTtl, post.ttl.n);
      SecondsExact(post.ttl.n);
    }
  }

  /** The table holds the inserted rows that have met no fate. */
  ghost predicate Ledger(s: State) {
    && s.fate.Keys <= s.ever.Keys
    && s.rows.Keys == s.ever.Keys - s.fate.Keys
    && forall id :: id in s.rows ==> s.rows[id] == s.ever[id].row
  }

  /** A row in the history, expired by now. */
  ghost predicate Stale(cfg: Config, s: State, id: Id) {
    id in s.ever && Dead(cfg, s.ever[id].row, s.now)
  }

  ghost predicate FetchOk(cfg: Config, s: State, id: Id, stage: Stage, pc: Pc) {
    && (stage != Peeking && stage != Getting(true) ==> id in s.ever)
    && (stage == Getting(false) ==> !s.ever[id].row.burn)
    && (stage == Taking ==> s.ever[id].row.burn && (pc == Clock || pc.Take?))
    && (stage != Taking ==> PeekOk(cfg, s, id, pc))
    && (pc.Take? ==> TakeOk(cfg, s, id, pc))
  }

  /** A selected row is the inserted one; what the view did not hold has expired. */
  ghost predicate PeekOk(cfg: Config, s: State, id: Id, pc: Pc) {
    match pc
    case Select => true
    case Check(row, seen) =>
      id in s.ever && row == s.ever[id].row && (seen == Some(row) || (seen == None && Dead(cfg, row, s.now)))
    case Drop => Stale(cfg, s, id)
    case _ => false
  }

  ghost predicate TakeOk(cfg: Config, s: State, id: Id, pc: Pc)
    requires pc.Take?
  {
    && id in s.ever && pc.at <= s.now
    && (pc.seen == Some(s.ever[id].row) || (pc.seen == None && (id in s.fate || Dead(cfg, s.ever[id].row, pc.at))))
  }

  ghost predicate FetchedOk(cfg: Config, s: State, t: Tid, id: Id, answer: Option<Row>, at: int) {
    answer.Some? ==>
      && id in s.ever && answer.value == s.ever[id].row
      && at <= s.now && !Dead(cfg, answer.value, at)
      && (answer.value.burn ==> id in s.fate && s.fate[id] == Burned(t))
  }

  /** Past the guard, a DELETE of a known id only ever names an unprotected, gone
      or expired paste. */
  ghost predicate Harmless(cfg: Config, s: State, id: Id) {
    id in s.ever && (s.ever[id].row.prot ==> id in s.fate || Dead(cfg, s.ever[id].row, s.now))
  }

  ghost predicate RemoveOk(cfg: Config, s: State, id: Id, known: bool, rpc: RemovePc) {
    && (known ==> id in s.ever)
    && match rpc
       case Guarding(pc) => PeekOk(cfg, s, id, pc)
       case Erasing => cfg.protectedOn && known ==> Harmless(cfg, s, id)
       case Removed(_) => true
  }

  ghost predicate CreateOk(cfg: Config, s: State, t: Tid, post: Post, saves: nat, cpc: CreatePc) {
    match cpc
    case Begin => saves == 0
    case Sealing => saves == 0
    case Deciding(content) => saves == 0 && AskedFor(cfg, post, Asked(cfg, post, content))
    case Naming(row, ttl) => saves < 3 && row.expireAt == None && AskedFor(cfg, post, row) && TtlFor(cfg, post, ttl)
    case Saving(id, row, ttl, born) =>
      && saves < 3 && AskedFor(cfg, post, row) && TtlFor(cfg, post, ttl)
      && born <= s.now && row.expireAt == ExpireAt(cfg.backend, born, ttl)
    case Leaving(status, id) => saves <= 3 && (status == 201 ==> id in s.ever && s.ever[id].owner == t)
    case Replied(status, id) => saves <= 3 && (status == 201 ==> id in s.ever && s.ever[id].owner == t)
  }

  ghost predicate ThreadOk(cfg: Config, s: State, t: Tid, thread: Thread) {
    match thread
    case Fetch(id, stage, pc) => FetchOk(cfg, s, id, stage, pc)
    case Fetched(id, answer, at) => FetchedOk(cfg, s, t, id, answer, at)
    case Remove(id, known, rpc) => RemoveOk(cfg, s, id, known, rpc)
    case Create(post, saves, cpc) => CreateOk(cfg, s, t, post, saves, cpc)
  }

  ghost predicate ThreadsOk(cfg: Config, s: State) {
    forall t :: t in s.threads ==> ThreadOk(cfg, s, t, s.threads[t])
  }

  /** Every row was inserted by the POST that returned its id, as that POST asked. */
  ghost predicate OriginOk(cfg: Config, s: State, id: Id)
    requires id in s.ever
  {
    var o := s.ever[id];
    && o.owner in s.threads && Returned201(s.threads[o.owner], id)
    && AskedFor(cfg, s.threads[o.owner].post, o.row) && TtlFor(cfg, s.threads[o.owner].post, o.ttl)
    && o.born <= s.now && o.row.expireAt == ExpireAt(cfg.backend, o.born, o.ttl)
  }

  ghost predicate OriginsOk(cfg: Config, s: State) {
    forall id :: id in s.ever ==> OriginOk(cfg, s, id)
  }

  /** A gone row was burned by the one reader that got it, deleted by a DELETE that
      was let through, or reaped after it expired. */
  ghost predicate FateOk(cfg: Config, s: State, id: Id)
    requires id in s.fate && id in s.ever
  {
    var row := s.ever[id].row;
    match s.fate[id]
    case Burned(t) =>
      row.burn && t in s.threads && s.threads[t].Fetched? && s.threads[t].id == id && s.threads[t].answer == Some(row)
    case Deleted(t, at) =>
      && at <= s.now
      && t in s.threads && s.threads[t].Remove? && s.threads[t].id == id && s.threads[t].rpc == Removed(200)
      && (cfg.protectedOn && s.threads[t].known && row.prot ==> Dead(cfg, row, at))
    case Reaped(at) => at <= s.now && Dead(cfg, row, at)
  }

  ghost predicate FatesOk(cfg: Config, s: State) {
    forall id :: id in s.fate && id in s.ever ==> FateOk(cfg, s, id)
  }

  /** Requests inside the section between taking and giving back an upload slot. */
  predicate Holds(thread: Thread) {
    thread.Create? && !thread.cpc.Begin? && !thread.cpc.Replied?
  }

  function Holders(s: State): set<Tid> {
    set t | t in s.threads && Holds(s.threads[t])
  }

  ghost predicate SlotsOk(cfg: Config, s: State) {
    s.sem == |Holders(s)| && s.sem <= cfg.capacity
  }

  ghost predicate Inv(cfg: Config, s: State) {
    Ledger(s) && ThreadsOk(cfg, s) && OriginsOk(cfg, s) && FatesOk(cfg, s) && SlotsOk(cfg, s)
  }

  /** The history only grows and the clock only advances. */
  ghost predicate Grows(s: State, s': State) {
    && s.now <= s'.now
    && s.ever.Keys <= s'.ever.Keys && (forall id :: id in s.ever ==> s'.ever[id] == s.ever[id])
    && s.fate.Keys <= s'.fate.Keys && (forall id :: id in s.fate ==> s'.fate[id] == s.fate[id])
  }

  lemma DeadStays(cfg: Config, row: Row, t: int, u: int)
    requires t <= u && Dead(cfg, row, t)
    ensures Dead(cfg, row, u)
  {
    ExpiredStays(cfg.backend, row.expireAt, t, u);
  }

  lemma DeadStaysIn(cfg: Config, s: State, s': State, id: Id)
    requires Grows(s, s') && id in s.ever
    ensures Dead(cfg, s.ever[id].row, s.now) ==> Dead(cfg, s'.ever[id].row, s'.now)
  {
    if Dead(cfg, s.ever[id].row, s.now) { DeadStays(cfg, s.ever[id].row, s.now, s'.now); }
  }

  lemma PeekStable(cfg: Config, s: State, s': State, id: Id, pc: Pc)
    requires Grows(s, s') && PeekOk(cfg, s, id, pc)
    ensures PeekOk(cfg, s', id, pc)
  {
    if id in s.ever { DeadStaysIn(cfg, s, s', id); }
  }

  /** What holds of a thread goes on holding whatever the others do. */
  lemma ThreadStable(cfg: Config, s: State, s': State, t: Tid, thread: Thread)
    requires Grows(s, s') && ThreadOk(cfg, s, t, thread)
    ensures ThreadOk(cfg, s', t, thread)
  {
    match thread
    case Fetch(id, stage, pc) => if stage != Taking { PeekStable(cfg, s, s', id, pc); }
    case Fetched(id, answer, at) =>
    case Remove(id, known, rpc) =>
      if rpc.Guarding? { PeekStable(cfg, s, s', id, rpc.pc); }
      if id in s.ever { DeadStaysIn(cfg, s, s', id); }
    case Create(_, _, _) =>
  }
}
