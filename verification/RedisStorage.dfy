/** The Redis storage and its use by fetchPaste as objects, one call after the other. */
module RedisStorage {
  import opened Faults
  import opened RedisMachine
  import opened RedisRuns
  import opened Ttl
  import opened Wrappers

  datatype SaveResult = Stored | Conflict | Failed

  /** HSETNX on "content" where there was none. */
  function Gated(hashes: map<Id, Hash>, id: Id, paste: Paste, now: int): map<Id, Hash> {
    hashes[id := LiveIn(hashes, id, now).(content := Some(paste.content))]
  }

  /** HSET of the other fields, and EXPIRE when there is a TTL. */
  function Filled(hashes: map<Id, Hash>, id: Id, paste: Paste, ttl: int, now: int): map<Id, Hash> {
    var h := LiveIn(hashes, id, now);
    hashes[id := Hash(h.content, Some(paste.meta), if ttl > 0 then Deadline(now, ttl) else h.expireAt)]
  }

  /** Whether a fetch ends in an error: its last call fails. */
  predicate FetchFails(was: map<Id, Hash>, id: Id, f: Faults, t1: int, t2: int) {
    var meta := LiveIn(was, id, t1).meta;
    if !f.peek && meta.Some? then (if meta.value.burn then f.take else f.get)
    else f.get || (f.take && BurnsAt(was, id, t2) && LiveIn(was, id, t2).content.Some?)
  }

  /** What fetchPaste answers and leaves, on any hashes, partial ones included. */
  function Fetching(was: map<Id, Hash>, id: Id, f: Faults, t1: int, t2: int, t3: int): (Option<Paste>, map<Id, Hash>) {
    var meta, paste := LiveIn(was, id, t1).meta, PasteOf(LiveIn(was, id, t2));
    if FetchFails(was, id, f, t1, t2) then (None, was)
    else if !f.peek && meta.Some? then (paste, if meta.value.burn then Without(was, id) else was)
    else if paste.Some? && paste.value.meta.burn then (PasteOf(LiveIn(was, id, t3)), Without(was, id))
    else (paste, was)
  }

  predicate BurnsAt(hashes: map<Id, Hash>, id: Id, now: int) {
    LiveIn(hashes, id, now).meta.Some? && LiveIn(hashes, id, now).meta.value.burn
  }

  /** What a Save comes to, its transactions at `now` and `later`, and what it leaves. */
  predicate Saves(was: map<Id, Hash>, hashes: map<Id, Hash>, id: Id, paste: Paste, ttl: int, now: int,
                  gateFails: bool, later: int, restFails: bool, r: SaveResult)
  {
    var taken := LiveIn(was, id, now).content.Some?;
    && (r == Conflict <==> !gateFails && taken)
    && (r == Stored <==> !gateFails && !taken && !restFails)
    && hashes == (if gateFails || taken then was
                  else if restFails then Gated(was, id, paste, now)
                  else Filled(Gated(was, id, paste, now), id, paste, ttl, later))
  }

  class Storage {
    var hashes: map<Id, Hash>

    constructor ()
      ensures hashes == map[]
    {
      hashes := map[];
    }

    /** Two transactions, at `now` and `later`; either may fail. */
    method Save(id: Id, paste: Paste, ttl: int, now: int, gateFails: bool, later: int, restFails: bool)
      returns (r: SaveResult)
      modifies this`hashes
      ensures Saves(old(hashes), hashes, id, paste, ttl, now, gateFails, later, restFails, r)
    {
      if gateFails { return Failed; }
      var h := LiveIn(hashes, id, now);
      if h.content.Some? { return Conflict; }
      hashes := hashes[id := h.(content := Some(paste.content))];
      if restFails { return Failed; }
      h := LiveIn(hashes, id, later).(meta := Some(paste.meta));
      if ttl > 0 { h := h.(expireAt := Deadline(later, ttl)); }
      hashes := hashes[id := h];
      return Stored;
    }

    /** The flags of a key that is there and not expired; none of a hash without flags. */
    method PeekMeta(id: Id, now: int) returns (m: Option<Meta>)
      ensures m.Some? <==>
        id in hashes && hashes[id].meta.Some? && (hashes[id].expireAt.Some? ==> now < hashes[id].expireAt.value)
      ensures m.Some? ==> m == hashes[id].meta
    {
      m := LiveIn(hashes, id, now).meta;
    }

    method Get(id: Id, now: int) returns (p: Option<Paste>)
      ensures p == PasteOf(LiveIn(hashes, id, now))
    {
      var h := LiveIn(hashes, id, now);
      if h.content == None { return None; }
      var meta := if h.meta.Some? then h.meta.value else NO_META;
      p := Some(Paste(h.content.value, meta));
    }

    /** The key is absent, and every other key is as it was. */
    method Delete(id: Id)
      modifies this`hashes
      ensures id !in hashes
      ensures forall i :: i != id ==>
        (i in hashes <==> i in old(hashes)) && (i in hashes ==> hashes[i] == old(hashes)[i])
    {
      hashes := map i | i in hashes && i != id :: hashes[i];
    }

    /** Every field, the TTL and the DEL in one transaction. */
    method GetAndDelete(id: Id, now: int) returns (p: Option<Paste>)
      modifies this`hashes
      ensures p == PasteOf(LiveIn(old(hashes), id, now)) && hashes == Without(old(hashes), id)
    {
      p := Get(id, now);
      Delete(id);
    }

    /** fetchPaste over this storage, its calls at t1, t2, t3 in turn and failing as `f`
        says; `failed` is its error. */
    method FetchPaste(id: Id, f: Faults, t1: int, t2: int, t3: int) returns (r: Option<Paste>, failed: bool)
      modifies this`hashes
      ensures failed <==> FetchFails(old(hashes), id, f, t1, t2)
      ensures (r, hashes) == Fetching(old(hashes), id, f, t1, t2, t3)
    {
      if !f.peek {
        var meta := PeekMeta(id, t1);
        if meta != None {
          if meta.value.burn {
            if f.take { return None, true; }
            r := GetAndDelete(id, t2);
            return r, false;
          }
          if f.get { return None, true; }
          r := Get(id, t2);
          return r, false;
        }
      }
      if f.get { return None, true; }
      var paste := Get(id, t2);
      if paste == None { return None, false; }
      if paste.value.meta.burn {
        if f.take { return None, true; }
        r := GetAndDelete(id, t3);
        return r, false;
      }
      return paste, false;
    }
  }

  /** A hash as a finished Save leaves it. */
  ghost predicate Whole(hashes: map<Id, Hash>, id: Id) {
    id in hashes ==> hashes[id].content.Some? && hashes[id].meta.Some?
  }

  /** On hashes as Save leaves them a fetch that does not fail answers with the live
      paste, takes a burn paste off when it answers with it, and leaves every other
      live key alone; one that fails leaves everything. */
  lemma FetchMeans(was: map<Id, Hash>, id: Id, f: Faults, t1: int, t2: int, t3: int)
    requires t1 <= t2 <= t3 && Whole(was, id)
    ensures var (r, after) := Fetching(was, id, f, t1, t2, t3); var fails := FetchFails(was, id, f, t1, t2);
      && r == (if fails then None else PasteOf(LiveIn(was, id, if f.peek && BurnsAt(was, id, t2) then t3 else t2)))
      && (r.Some? && r.value.meta.burn ==> id !in after)
      && (fails || !BurnsAt(was, id, t2) ==> LiveIn(after, id, t2) == LiveIn(was, id, t2))
      && forall i :: i != id ==> LiveIn(after, i, t2) == LiveIn(was, i, t2)
  {}

  /** A Save of an id that is not there leaves the whole paste with its own deadline: its TTL
      cut to whole seconds, and never less than one. */
  lemma SavedIsWhole(hashes: map<Id, Hash>, id: Id, paste: Paste, ttl: int, now: int, later: int)
    requires LiveIn(hashes, id, now) == EMPTY_HASH && now <= later
    ensures var k := Filled(Gated(hashes, id, paste, now), id, paste, ttl, later);
      && k[id].content == Some(paste.content) && k[id].meta == Some(paste.meta)
      && (k[id].expireAt == None <==> ttl <= 0)
      && (ttl >= SECOND ==> later + ttl - SECOND < k[id].expireAt.value <= later + ttl)
      && (0 < ttl < SECOND ==> k[id].expireAt == Some(later + SECOND))
      && Whole(k, id) && PasteOf(LiveIn(k, id, later)) == Some(paste)
      && forall i :: i in hashes && i != id ==> i in k && k[i] == hashes[i]
  {
    DeadlineMeans(later, ttl);
  }

  // The objects against the state machine: a request nobody interrupts.

  function StatusOf(r: SaveResult): int {
    match r case Stored => 201 case Conflict => 409 case Failed => 500
  }

  /** Main result: the machine's Save, left alone, does what Save does, whether or not
      the id is taken and whichever transaction fails. */
  lemma SaveAlone(protectedOn: bool, s: State, t: Tid, gateFails: bool, later: int, restFails: bool)
    returns (r: SaveResult)
    requires t in s.threads && s.threads[t].Save? && s.threads[t].spc == Gate && s.now <= later
    ensures var th := s.threads[t]; var k := After(protectedOn, s, [Run(t, gateFails), Tick(later), Run(t, restFails)]);
      && t in k.threads && k.threads[t] == th.(spc := Saved(StatusOf(r)))
      && Saves(s.hashes, k.hashes, th.id, th.paste, th.ttl, s.now, gateFails, later, restFails, r)
  {
    var gate, tick, rest := Run(t, gateFails), Tick(later), Run(t, restFails);
    var s1 := Next(protectedOn, s, gate);
    var s2 := Next(protectedOn, s1, tick);
    assert [gate, tick, rest][1..] == [tick, rest] && [tick, rest][1..] == [rest] && [rest][1..] == [];
    assert After(protectedOn, s2, [rest]) == Next(protectedOn, s2, rest);
    r := if gateFails then Failed
         else if LiveIn(s.hashes, s.threads[t].id, s.now).content.Some? then Conflict
         else if restFails then Failed else Stored;
  }

  /** One call at time `at`. */
  lemma Call(protectedOn: bool, s: State, t: Tid, at: int, fails: bool) returns (run: seq<Label>, k: State)
    requires t in s.threads && s.threads[t].Fetch? && s.now <= at
    ensures Leads(protectedOn, s, run, k) && k == Next(protectedOn, s.(now := at), Run(t, fails)) && k.now == at
  {
    var s0 := Next(protectedOn, s, Tick(at));
    k := Next(protectedOn, s0, Run(t, fails));
    LeadsOne(protectedOn, s0, Run(t, fails));
    LeadsFrom(protectedOn, s, Tick(at), [Run(t, fails)], k);
    run := [Tick(at)] + [Run(t, fails)];
  }

  /** PeekMeta at time `at`. */
  lemma PeekCall(protectedOn: bool, s: State, t: Tid, id: Id, known: bool, at: int, fails: bool)
    returns (run: seq<Label>, k: State)
    requires t in s.threads && s.threads[t] == Fetch(id, known, Peeking) && s.now <= at
    ensures Leads(protectedOn, s, run, k) && t in k.threads && k.now == at && k.hashes == s.hashes
    ensures var meta := LiveIn(s.hashes, id, at).meta;
      k.threads[t] == Fetch(
        id, known, if fails || meta == None then Getting(true) else if meta.value.burn then Taking else Getting(false))
  {
    run, k := Call(protectedOn, s, t, at, fails);
  }

  /** GetAndDelete at time `at`. */
  lemma TakeCall(protectedOn: bool, s: State, t: Tid, id: Id, known: bool, at: int, fails: bool)
    returns (run: seq<Label>, k: State)
    requires t in s.threads && s.threads[t] == Fetch(id, known, Taking) && s.now <= at
    ensures Leads(protectedOn, s, run, k) && t in k.threads
    ensures k.threads[t] == Fetch(id, known, Fetched(if fails then None else PasteOf(LiveIn(s.hashes, id, at))))
    ensures k.hashes == if fails then s.hashes else Without(s.hashes, id)
  {
    run, k := Call(protectedOn, s, t, at, fails);
  }

  /** Get at time `at`, and the take behind it where the fallback found a burn paste. */
  lemma GetCalls(protectedOn: bool, s: State, t: Tid, id: Id, known: bool, fallback: bool, f: Faults, t2: int, t3: int)
    returns (run: seq<Label>, k: State)
    requires t in s.threads && s.threads[t] == Fetch(id, known, Getting(fallback)) && s.now <= t2 <= t3
    ensures Leads(protectedOn, s, run, k) && t in k.threads
    ensures var p := PasteOf(LiveIn(s.hashes, id, t2)); var takes := !f.get && fallback && p.Some? && p.value.meta.burn;
      && k.threads[t] == Fetch(id, known, Fetched(
           if f.get || (takes && f.take) then None else if takes then PasteOf(LiveIn(s.hashes, id, t3)) else p))
      && k.hashes == if takes && !f.take then Without(s.hashes, id) else s.hashes
  {
    run, k := Call(protectedOn, s, t, t2, f.get);
    if k.threads[t].fpc == Taking {
      var get, m := run, k;
      run, k := TakeCall(protectedOn, m, t, id, known, t3, f.take);
      LeadsOnward(protectedOn, s, get, m, run, k);
      run := get + run;
    }
  }

  /** Main result: so does its fetch what FetchPaste does, at whatever times its calls
      run and whichever of them fail. */
  lemma FetchAlone(protectedOn: bool, s: State, t: Tid, id: Id, known: bool, f: Faults, t1: int, t2: int, t3: int)
    returns (run: seq<Label>, k: State)
    requires t in s.threads && s.threads[t] == Fetch(id, known, Peeking) && s.now <= t1 <= t2 <= t3
    ensures Leads(protectedOn, s, run, k) && t in k.threads
    ensures var (r, after) := Fetching(s.hashes, id, f, t1, t2, t3);
      k.threads[t] == Fetch(id, known, Fetched(r)) && k.hashes == after
  {
    var peek, m := PeekCall(protectedOn, s, t, id, known, t1, f.peek);
    if m.threads[t].fpc == Taking {
      run, k := TakeCall(protectedOn, m, t, id, known, t2, f.take);
    } else {
      run, k := GetCalls(protectedOn, m, t, id, known, m.threads[t].fpc.fallback, f, t2, t3);
    }
    LeadsOnward(protectedOn, s, peek, m, run, k);
    run := peek + run;
  }
}
