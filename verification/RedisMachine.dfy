/** The Redis backend: pastes are hashes, every command or MULTI/EXEC is one atomic
    step, and Save is two of them: the HSETNX gate on "content", then the other
    fields and the expiry. */
module RedisMachine {
  import opened Wrappers
  import opened Bytes
  import opened Ttl

  type Id = string
  type Tid = nat

  /** The fields burn, enc, e2e, prot and lang. */
  datatype Meta = Meta(burn: bool, enc: bool, e2e: bool, prot: bool, lang: string)
  datatype Paste = Paste(content: ByteString, meta: Meta)

  /** A hash as stored: Save can leave it with content alone. */
  datatype Hash = Hash(content: Option<ByteString>, meta: Option<Meta>, expireAt: Option<int>)

  datatype SavePc = Gate | Fill | Saved(status: int)
  datatype FetchPc = Peeking | Getting(fallback: bool) | Taking | Fetched(answer: Option<Paste>)
  datatype RemovePc = Guarding | Erasing | Removed(status: int)

  /** `known` says whether the id had been returned by a 201 when the request came in. */
  datatype Thread =
    | Save(id: Id, paste: Paste, ttl: int, spc: SavePc)
    | Fetch(id: Id, known: bool, fpc: FetchPc)
    | Remove(id: Id, known: bool, rpc: RemovePc)

  /** Whose gate an id passed, with what. */
  datatype Origin = Origin(paste: Paste, ttl: int, owner: Tid)
  datatype Fate = Burned(reader: Tid) | Deleted(deleter: Tid)

  /** `ever`, `filled` (when the second transaction ran) and `fate` are history. */
  datatype State = State(
    now: int, hashes: map<Id, Hash>, threads: map<Tid, Thread>,
    ever: map<Id, Origin>, filled: map<Id, int>, fate: map<Id, Fate>)

  datatype Effect =
    | Nothing
    | SetContent(id: Id, paste: Paste, ttl: int)
    | SetRest(id: Id, meta: Meta, ttl: int)
    | Take(id: Id)
    | Del(id: Id)

  datatype Label = Tick(to: int) | Arrive(t: Tid, thread: Thread) | Run(t: Tid, fault: bool)

  /** EXPIRE counts whole seconds, at least one. */
  function Deadline(now: int, ttl: int): Option<int> {
    if ttl <= 0 then None else Some(now + if ttl < SECOND then SECOND else ttl / SECOND * SECOND)
  }

  /** The deadline is the TTL cut to whole seconds, and never less than one. */
  lemma DeadlineMeans(now: int, ttl: int)
    ensures Deadline(now, ttl) == None <==> ttl <= 0
    ensures ttl >= SECOND ==> now + ttl - SECOND < Deadline(now, ttl).value <= now + ttl
    ensures 0 < ttl < SECOND ==> Deadline(now, ttl).value == now + SECOND
  {}

  const EMPTY_HASH := Hash(None, None, None)

  /** What commands see: an expired key is as good as absent. */
  function LiveIn(hashes: map<Id, Hash>, id: Id, now: int): Hash {
    if id in hashes && !(hashes[id].expireAt.Some? && now >= hashes[id].expireAt.value) then hashes[id]
    else EMPTY_HASH
  }

  function Live(s: State, id: Id): Hash {
    LiveIn(s.hashes, id, s.now)
  }

  const NO_META := Meta(false, false, false, false, "")

  /** HMGET with its answers read as Get reads them: missing flags are false. */
  function PasteOf(h: Hash): Option<Paste> {
    match h.content
    case None => None
    case Some(c) => Some(Paste(c, match h.meta { case None => NO_META case Some(m) => m }))
  }

  function SaveStep(s: State, id: Id, paste: Paste, ttl: int, spc: SavePc, fault: bool): (Thread, Effect) {
    match spc
    case Gate =>
      if fault then (Save(id, paste, ttl, Saved(500)), Nothing)
      else if Live(s, id).content.Some? then (Save(id, paste, ttl, Saved(409)), Nothing)
      else (Save(id, paste, ttl, Fill), SetContent(id, paste, ttl))
    case Fill =>
      if fault then (Save(id, paste, ttl, Saved(500)), Nothing)
      else (Save(id, paste, ttl, Saved(201)), SetRest(id, paste.meta, ttl))
    case Saved(_) => (Save(id, paste, ttl, spc), Nothing)
  }

  /** fetchPaste over PeekMeta (nil when "burn" is missing), Get and GetAndDelete. */
  function FetchStep(s: State, id: Id, known: bool, fpc: FetchPc, fault: bool): (Thread, Effect) {
    match fpc
    case Peeking =>
      (match Live(s, id).meta
       case Some(m) =>
         Fetch(id, known, if fault then Getting(true) else if m.burn then Taking else Getting(false))
       case None => Fetch(id, known, Getting(true)), Nothing)
    case Getting(fallback) =>
      var p := if fault then None else PasteOf(Live(s, id));
      (if p.Some? && fallback && p.value.meta.burn then Fetch(id, known, Taking) else Fetch(id, known, Fetched(p)),
       Nothing)
    case Taking =>
      if fault then (Fetch(id, known, Fetched(None)), Nothing)
      else (Fetch(id, known, Fetched(PasteOf(Live(s, id)))), Take(id))
    case Fetched(_) => (Fetch(id, known, fpc), Nothing)
  }

  function RemoveStep(protectedOn: bool, s: State, id: Id, known: bool, rpc: RemovePc, fault: bool): (Thread, Effect) {
    match rpc
    case Guarding =>
      var m := Live(s, id).meta;
      (if !protectedOn then Remove(id, known, Erasing)
       else if fault then Remove(id, known, Removed(500))
       else if m.Some? && m.value.prot then Remove(id, known, Removed(403))
       else Remove(id, known, Erasing), Nothing)
    case Erasing =>
      if fault then (Remove(id, known, Removed(500)), Nothing)
      else (Remove(id, known, Removed(200)), Del(id))
    case Removed(_) => (Remove(id, known, rpc), Nothing)
  }

  function ThreadStep(protectedOn: bool, s: State, thread: Thread, fault: bool): (Thread, Effect) {
    match thread
    case Save(id, paste, ttl, spc) => SaveStep(s, id, paste, ttl, spc, fault)
    case Fetch(id, known, fpc) => FetchStep(s, id, known, fpc, fault)
    case Remove(id, known, rpc) => RemoveStep(protectedOn, s, id, known, rpc, fault)
  }

  function Without(hashes: map<Id, Hash>, id: Id): map<Id, Hash> {
    map i | i in hashes && i != id :: hashes[i]
  }

  /** DEL; the fate of a key that was there is noted. */
  function Gone(s: State, id: Id, f: Fate): State {
    if id in s.hashes then s.(hashes := Without(s.hashes, id), fate := s.fate[id := f]) else s
  }

  function Apply(s: State, t: Tid, e: Effect): State {
    match e
    case Nothing => s
    case SetContent(id, paste, ttl) =>
      s.(hashes := s.hashes[id := Live(s, id).(content := Some(paste.content))],
         ever := s.ever[id := Origin(paste, ttl, t)])
    case SetRest(id, meta, ttl) =>
      var h := Live(s, id);
      s.(hashes := s.hashes[id := Hash(h.content, Some(meta), if ttl > 0 then Deadline(s.now, ttl) else h.expireAt)],
         filled := s.filled[id := s.now])
    case Take(id) => Gone(s, id, Burned(t))
    case Del(id) => Gone(s, id, Deleted(t))
  }

  /** Ids returned by a 201. */
  predicate Published(s: State, id: Id) {
    exists t :: t in s.threads && s.threads[t].Save? && s.threads[t].id == id && s.threads[t].spc == Saved(201)
  }

  /** How a request starts. */
  predicate Fresh(s: State, thread: Thread) {
    match thread
    case Save(_, _, _, spc) => spc == Gate
    case Fetch(id, known, fpc) => known == Published(s, id) && fpc == Peeking
    case Remove(id, known, rpc) => known == Published(s, id) && rpc == Guarding
  }

  /** The gate about to pass would save an id a second time. */
  predicate Recycles(s: State, thread: Thread) {
    thread.Save? && thread.spc == Gate && thread.id in s.ever && Live(s, thread.id).content == None
  }

  /** The environment: the clock never goes back, requests come in at their first
      step, and no id is saved again once its paste is gone. */
  predicate Enabled(s: State, l: Label) {
    match l
    case Tick(to) => s.now <= to
    case Arrive(t, thread) => t !in s.threads && Fresh(s, thread)
    case Run(t, _) => t in s.threads && !Recycles(s, s.threads[t])
  }

  function Next(protectedOn: bool, s: State, l: Label): State {
    match l
    case Tick(to) => s.(now := to)
    case Arrive(t, thread) => s.(threads := s.threads[t := thread])
    case Run(t, fault) =>
      if t !in s.threads then s else
        var (thread, effect) := ThreadStep(protectedOn, s, s.threads[t], fault);
        Apply(s, t, effect).(threads := s.threads[t := thread])
  }

  function Init(now: int): State {
    State(now, map[], map[], map[], map[], map[])
  }

  function After(protectedOn: bool, s: State, run: seq<Label>): State
    decreases |run|
  {
    if run == [] then s else After(protectedOn, Next(protectedOn, s, run[0]), run[1..])
  }

  predicate Legal(protectedOn: bool, s: State, run: seq<Label>)
    decreases |run|
  {
    run == [] || (Enabled(s, run[0]) && Legal(protectedOn, Next(protectedOn, s, run[0]), run[1..]))
  }
}
