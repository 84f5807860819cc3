/** The SQL storage and the request handlers as objects, one call after the other. */
module SqlStorage {
  import opened Bytes
  import opened Faults
  import opened SqlInvariant
  import opened SqlMachine
  import opened Ttl
  import opened Wrappers

  /** The row of an id, when it is there and not expired at `now`. */
  function Live(b: Backend, rows: map<Id, Row>, id: Id, now: int): Option<Row> {
    if id in rows && !Expired(b, rows[id].expireAt, now) then Some(rows[id]) else None
  }

  /** Reading takes off an expired row on SQLite and nothing else. */
  function Tidied(b: Backend, rows: map<Id, Row>, id: Id, now: int): map<Id, Row> {
    if b == Sqlite && id in rows && Expired(b, rows[id].expireAt, now) then Without(rows, id) else rows
  }

  /** Rows without their content, as PeekMeta returns them. */
  function Meta(r: Option<Row>): Option<Row> {
    match r case None => None case Some(row) => Some(row.(content := []))
  }

  /** What one draw of an id and one Save come to. */
  datatype Draw = Draw(slug: Id, noSlug: bool, saveFails: bool, at: int)

  class Storage {
    const backend: Backend
    var rows: map<Id, Row>

    constructor (backend: Backend)
      ensures this.backend == backend && rows == map[]
    {
      this.backend := backend;
      rows := map[];
    }

    /** INSERT OR IGNORE; false stands for ErrSlugConflict. */
    method Save(id: Id, paste: Row, ttl: int, now: int) returns (ok: bool)
      modifies this`rows
      ensures ok <==> id !in old(rows)
      ensures rows == if ok then old(rows)[id := paste.(expireAt := ExpireAt(backend, now, ttl))] else old(rows)
    {
      var expireAt := None;
      if ttl > 0 { expireAt := Some(Stamp(backend, now + ttl)); }
      if id in rows { return false; }
      rows := rows[id := paste.(expireAt := expireAt)];
      return true;
    }

    method Get(id: Id, now: int) returns (r: Option<Row>)
      modifies this`rows
      ensures r == Live(backend, old(rows), id, now)
      ensures rows == Tidied(backend, old(rows), id, now)
    {
      if id !in rows { return None; }
      var row := rows[id];
      if row.expireAt.Some? && Stamp(backend, now) >= row.expireAt.value {
        if backend == Sqlite { rows := map i | i in rows && i != id :: rows[i]; }
        return None;
      }
      return Some(row);
    }

    method PeekMeta(id: Id, now: int) returns (r: Option<Row>)
      modifies this`rows
      ensures r == Meta(Live(backend, old(rows), id, now))
      ensures rows == Tidied(backend, old(rows), id, now)
    {
      if id !in rows { return None; }
      var row := rows[id];
      if row.expireAt.Some? && Stamp(backend, now) >= row.expireAt.value {
        if backend == Sqlite { rows := map i | i in rows && i != id :: rows[i]; }
        return None;
      }
      return Some(row.(content := []));
    }

    /** The id is free again, and every other row is as it was. */
    method Delete(id: Id)
      modifies this`rows
      ensures id !in rows
      ensures forall i :: i != id ==> (i in rows <==> i in old(rows)) && (i in rows ==> rows[i] == old(rows)[i])
    {
      rows := map i | i in rows && i != id :: rows[i];
    }

    method GetAndDelete(id: Id, now: int) returns (r: Option<Row>)
      modifies this`rows
      ensures r == Live(backend, old(rows), id, now)
      ensures rows == if r.Some? then Without(old(rows), id) else old(rows)
    {
      if id in rows && (rows[id].expireAt == None || rows[id].expireAt.value > Stamp(backend, now)) {
        r := Some(rows[id]);
        rows := map i | i in rows && i != id :: rows[i];
      } else {
        r := None;
      }
    }

    /** A row goes exactly when its stamp is strictly past. No read at this time or
        later can tell. */
    method Cleanup(now: int)
      modifies this`rows
      ensures forall id :: id in old(rows) && id !in rows <==>
        id in old(rows) && old(rows)[id].expireAt.Some? && old(rows)[id].expireAt.value < Stamp(backend, now)
      ensures forall id :: id in rows ==> id in old(rows) && rows[id] == old(rows)[id]
      ensures forall id, t :: now <= t ==> Live(backend, rows, id, t) == Live(backend, old(rows), id, t)
    {
      ghost var was := rows;
      rows := map id | id in rows && !(rows[id].expireAt != None && rows[id].expireAt.value < Stamp(backend, now))
        :: rows[id];
      forall id, t | now <= t ensures Live(backend, rows, id, t) == Live(backend, was, id, t) {
        if id in was && id !in rows { SweptNeverLive(backend, was[id].expireAt, now, t); }
      }
    }
  }

  lemma SweptNeverLive(b: Backend, expireAt: Option<int>, now: int, t: int)
    requires now <= t && Sweepable(b, expireAt, now)
    ensures Expired(b, expireAt, t)
  {
    SweptIsExpired(b, expireAt, now);
    ExpiredStays(b, expireAt, now, t);
  }

  lemma StillExpired(b: Backend, rows: map<Id, Row>, id: Id, t: int, u: int)
    requires t <= u
    ensures id in rows && Expired(b, rows[id].expireAt, t) ==> Expired(b, rows[id].expireAt, u)
  {
    if id in rows && Expired(b, rows[id].expireAt, t) { ExpiredStays(b, rows[id].expireAt, t, u); }
  }

  predicate Burning(rows: map<Id, Row>, id: Id) {
    id in rows && rows[id].burn
  }

  /** Whether a fetch ends in an error: its last call fails. A failed PeekMeta alone
      does not make it fail. */
  predicate FetchFails(b: Backend, was: map<Id, Row>, id: Id, f: Faults, t1: int, t2: int) {
    if !f.peek && Live(b, was, id, t1).Some? then (if was[id].burn then f.take else f.get)
    else f.get || (f.take && Burning(was, id) && Live(b, was, id, t2).Some?)
  }

  /** What a fetch answers: the paste, if it is live at the last reading that matters. */
  function FetchAnswer(b: Backend, was: map<Id, Row>, id: Id, f: Faults, t1: int, t2: int, t3: int): Option<Row> {
    if FetchFails(b, was, id, f, t1, t2) then None
    else Live(b, was, id, if f.peek && Burning(was, id) then t3 else t2)
  }

  /** What it leaves: the table without a burn paste it answered with, or without a row
      it found expired. A burn paste that expired between peek and take stays for
      the cleanup, and so does what a failed call did not reach. */
  function FetchRows(b: Backend, was: map<Id, Row>, id: Id, f: Faults, t1: int, t2: int, t3: int): map<Id, Row> {
    var r := FetchAnswer(b, was, id, f, t1, t2, t3);
    if r.Some? then (if r.value.burn then Without(was, id) else was)
    else if FetchFails(b, was, id, f, t1, t2) then (if f.peek then was else Tidied(b, was, id, t1))
    else if Burning(was, id) && !f.peek then Tidied(b, was, id, t1)
    else Tidied(b, was, id, t2)
  }

  /** What a DELETE answers and leaves. With the protected feature on, a live protected
      paste stays and is refused; else the row goes unless a statement fails. */
  ghost predicate Deletes(b: Backend, protectedOn: bool, was: map<Id, Row>, rows: map<Id, Row>, id: Id,
                          peekFails: bool, deleteFails: bool, now: int, status: int)
  {
    var found := Live(b, was, id, now);
    var refused := protectedOn && !peekFails && found.Some? && found.value.prot;
    && (status == 403 <==> refused)
    && (status == 500 <==> !refused && (deleteFails || (protectedOn && peekFails)))
    && (status != 403 && status != 500 ==> status == 200 && rows == Without(was, id))
    && (status != 200 ==> rows == if protectedOn && !peekFails then Tidied(b, was, id, now) else was)
  }

  class App {
    const cfg: Config
    const storage: Storage
    var sem: nat

    constructor (cfg: Config)
      ensures this.cfg == cfg && sem == 0 && fresh(storage) && storage.backend == cfg.backend && storage.rows == map[]
    {
      this.cfg := cfg;
      sem := 0;
      storage := new Storage(cfg.backend);
    }

    /** fetchPaste, whose storage calls read the clock at t1, t2, t3 in turn and fail
        as `f` says; `failed` is its error. */
    method FetchPaste(id: Id, f: Faults, t1: int, t2: int, t3: int) returns (r: Option<Row>, failed: bool)
      requires t1 <= t2 <= t3
      modifies storage`rows
      ensures failed <==> FetchFails(storage.backend, old(storage.rows), id, f, t1, t2)
      ensures r == FetchAnswer(storage.backend, old(storage.rows), id, f, t1, t2, t3)
      ensures storage.rows == FetchRows(storage.backend, old(storage.rows), id, f, t1, t2, t3)
    {
      StillExpired(storage.backend, storage.rows, id, t1, t2);
      StillExpired(storage.backend, storage.rows, id, t2, t3);
      if !f.peek {
        var meta := storage.PeekMeta(id, t1);
        if meta != None {
          if meta.value.burn {
            if f.take { return None, true; }
            r := storage.GetAndDelete(id, t2);
            return r, false;
          }
          if f.get { return None, true; }
          r := storage.Get(id, t2);
          return r, false;
        }
      }
      if f.get { return None, true; }
      var paste := storage.Get(id, t2);
      if paste == None { return None, false; }
      if paste.value.burn {
        if f.take { return None, true; }
        r := storage.GetAndDelete(id, t3);
        return r, false;
      }
      return paste, false;
    }

    /** handleDelete. */
    method HandleDelete(id: Id, peekFails: bool, deleteFails: bool, now: int) returns (status: int)
      modifies storage`rows
      ensures Deletes(storage.backend, cfg.protectedOn, old(storage.rows), storage.rows, id, peekFails, deleteFails,
                      now, status)
    {
      if cfg.protectedOn {
        if peekFails { return 500; }
        var meta := storage.PeekMeta(id, now);
        if meta != None && meta.value.prot { return 403; }
      }
      if deleteFails { return 500; }
      storage.Delete(id);
      return 200;
    }

    /** handleCreatePaste. The slot that is taken is given back on every path. */
    method HandleCreatePaste(post: Post, bodyFails: bool, nonce: ByteString, draws: seq<Draw>)
      returns (status: int, id: Id)
      requires |draws| == MAX_SLUG_RETRIES && storage.backend == cfg.backend
      modifies this`sem, storage`rows
      ensures sem == old(sem)
      ensures (status, id, storage.rows) == Posting(cfg, sem, old(storage.rows), post, bodyFails, nonce, draws)
    {
      if post.contentLength > cfg.maxPasteSize { return 413, ""; }
      if bodyFails { return 500, ""; }
      if |Truncate(cfg, post.body)| == 0 { return 400, ""; }
      if sem >= cfg.capacity { return 503, ""; }
      sem := sem + 1;
      status, id := Upload(post, nonce, draws);
      sem := sem - 1;
    }

    /** The part that holds a slot. */
    method Upload(post: Post, nonce: ByteString, draws: seq<Draw>) returns (status: int, id: Id)
      requires |draws| == MAX_SLUG_RETRIES && storage.backend == cfg.backend
      modifies storage`rows
      ensures (status, id, storage.rows) == Uploading(cfg, old(storage.rows), post, nonce, draws)
    {
      var content := Seal(cfg, Truncate(cfg, post.body), nonce);
      if content == None { return 500, ""; }
      var requested := RequestedTtl(post.ttl);
      if requested == None { return 400, ""; }
      var ttl := ResolveTtl(cfg.maxTtl, requested.value);
      var paste := Asked(cfg, post, content.value);
      status, id := 500, "";
      for i := 0 to MAX_SLUG_RETRIES
        invariant storage.rows == old(storage.rows)
        invariant Trying(cfg.backend, storage.rows, paste, ttl, draws[i..]) ==
          Trying(cfg.backend, storage.rows, paste, ttl, draws)
      {
        var d := draws[i];
        assert draws[i..][1..] == draws[i + 1..];
        if d.noSlug { return 500, ""; }
        if d.saveFails { return 500, ""; }
        var ok := storage.Save(d.slug, paste, ttl, d.at);
        if ok { return 201, d.slug; }
      }
    }
  }

  /** Up to |draws| tries; a conflict goes on to the next, everything else decides. */
  function Trying(b: Backend, rows: map<Id, Row>, paste: Row, ttl: int, draws: seq<Draw>): (int, Id, map<Id, Row>)
    decreases |draws|
  {
    if draws == [] || draws[0].noSlug || draws[0].saveFails then (500, "", rows)
    else if draws[0].slug !in rows then
      (201, draws[0].slug, rows[draws[0].slug := paste.(expireAt := ExpireAt(b, draws[0].at, ttl))])
    else Trying(b, rows, paste, ttl, draws[1..])
  }

  function Uploading(cfg: Config, rows: map<Id, Row>, post: Post, nonce: ByteString, draws: seq<Draw>)
    : (int, Id, map<Id, Row>)
  {
    var content, requested := Seal(cfg, Truncate(cfg, post.body), nonce), RequestedTtl(post.ttl);
    if content == None then (500, "", rows)
    else if requested == None then (400, "", rows)
    else Trying(cfg.backend, rows, Asked(cfg, post, content.value), ResolveTtl(cfg.maxTtl, requested.value), draws)
  }

  function Posting(cfg: Config, sem: nat, rows: map<Id, Row>, post: Post, bodyFails: bool, nonce: ByteString,
                   draws: seq<Draw>)
    : (int, Id, map<Id, Row>)
  {
    if post.contentLength > cfg.maxPasteSize then (413, "", rows)
    else if bodyFails then (500, "", rows)
    else if |Truncate(cfg, post.body)| == 0 then (400, "", rows)
    else if sem >= cfg.capacity then (503, "", rows)
    else Uploading(cfg, rows, post, nonce, draws)
  }

  /** What a try may come to: the first draw that is free or fails. */
  lemma {:induction false} TryingMeans(b: Backend, rows: map<Id, Row>, paste: Row, ttl: int, draws: seq<Draw>)
    returns (k: nat)
    ensures var (status, id, after) := Trying(b, rows, paste, ttl, draws);
      && k <= |draws|
      && (forall j :: 0 <= j < k ==> draws[j].slug in rows && !draws[j].noSlug && !draws[j].saveFails)
      && (k < |draws| ==> draws[k].noSlug || draws[k].saveFails || draws[k].slug !in rows)
      && (if k < |draws| && !draws[k].noSlug && !draws[k].saveFails
          then status == 201 && id == draws[k].slug && id !in rows
            && after == rows[id := paste.(expireAt := ExpireAt(b, draws[k].at, ttl))]
          else status == 500 && id == "" && after == rows)
    decreases |draws|
  {
    if draws == [] || draws[0].noSlug || draws[0].saveFails || draws[0].slug !in rows {
      k := 0;
    } else {
      k := TryingMeans(b, rows, paste, ttl, draws[1..]);
      k := k + 1;
    }
  }

  /** A body arrives that is neither too long nor empty. */
  predicate Fits(cfg: Config, post: Post, bodyFails: bool) {
    post.contentLength <= cfg.maxPasteSize && !bodyFails && post.body != [] && cfg.maxPasteSize > 0
  }

  predicate BadTtl(p: TtlParam) {
    p.Malformed? || (p.Given? && p.n < 0)
  }

  /** The server's key, if any, can be used with this nonce. */
  predicate Sealable(cfg: Config, nonce: ByteString) {
    cfg.key.Some? ==> |nonce| == NONCE_SIZE
  }

  /** What every answer of a POST but 201 means. */
  lemma RefusalMeans(cfg: Config, sem: nat, rows: map<Id, Row>, post: Post, bodyFails: bool, nonce: ByteString,
                     draws: seq<Draw>)
    ensures var (status, id, after) := Posting(cfg, sem, rows, post, bodyFails, nonce, draws);
      var fits := Fits(cfg, post, bodyFails); var enters := fits && sem < cfg.capacity;
      && (status == 413 <==> post.contentLength > cfg.maxPasteSize)
      && (status == 503 <==> fits && sem >= cfg.capacity)
      && (status == 400 <==>
            || (post.contentLength <= cfg.maxPasteSize && !bodyFails && !fits)
            || (enters && Sealable(cfg, nonce) && BadTtl(post.ttl)))
      && (status == 500 ==>
            || (post.contentLength <= cfg.maxPasteSize && bodyFails)
            || (enters && (!Sealable(cfg, nonce) || !BadTtl(post.ttl))))
      && (status != 201 ==> after == rows && id == "" && status in {400, 413, 500, 503})
  {
    var content, requested := Seal(cfg, Truncate(cfg, post.body), nonce), RequestedTtl(post.ttl);
    if content.Some? && requested.Some? {
      var ttl := ResolveTtl(cfg.maxTtl, requested.value);
      var k := TryingMeans(cfg.backend, rows, Asked(cfg, post, content.value), ttl, draws);
    }
  }

  /** Draw `k` is the first that does not hit a taken id. */
  ghost predicate Decides(rows: map<Id, Row>, draws: seq<Draw>, k: nat) {
    && k < |draws| && (forall j :: 0 <= j < k ==> draws[j].slug in rows && !draws[j].noSlug && !draws[j].saveFails)
    && (draws[k].noSlug || draws[k].saveFails || draws[k].slug !in rows)
  }

  /** What 201 means: one new row, under the first id drawn that was free, with what the
      POST asked for and the expiry of its TTL; and there is no other way to fail than
      a failing draw or taken ids alone. */
  lemma SuccessMeans(cfg: Config, sem: nat, rows: map<Id, Row>, post: Post, nonce: ByteString, draws: seq<Draw>)
    returns (k: nat)
    requires Lawful(cfg.aead) && cfg.maxTtl >= 0
    requires Fits(cfg, post, false) && sem < cfg.capacity && Sealable(cfg, nonce) && !BadTtl(post.ttl)
    ensures var (status, id, after) := Posting(cfg, sem, rows, post, false, nonce, draws);
      if k < |draws| && !draws[k].noSlug && !draws[k].saveFails then
        && Decides(rows, draws, k) && status == 201 && id == draws[k].slug && id !in rows
        && id in after && after == rows[id := after[id]] && AskedFor(cfg, post, after[id])
        && exists ttl ::
             TtlAsAsked(cfg.maxTtl, post.ttl, ttl) && after[id].expireAt == ExpireAt(cfg.backend, draws[k].at, ttl)
      else status == 500 && after == rows && (k == |draws| || Decides(rows, draws, k))
    ensures k >= |draws| ==>
      forall j :: 0 <= j < |draws| ==> draws[j].slug in rows && !draws[j].noSlug && !draws[j].saveFails
  {
    var content := Seal(cfg, Truncate(cfg, post.body), nonce).value;
    var ttl := ResolveTtl(cfg.maxTtl, RequestedTtl(post.ttl).value);
    k := TryingMeans(cfg.backend, rows, Asked(cfg, post, content), ttl, draws);
    if cfg.key.Some? { DecryptEncrypt(cfg.aead, cfg.key.value, nonce, Truncate(cfg, post.body)); }
    TtlForMeans(cfg, post, ttl);
    assert AskedFor(cfg, post, Asked(cfg, post, content));
  }
}
