/** What a known DELETE on Redis comes to among any other requests. */
module RedisDeleting {
  import opened RedisMachine
  import opened RedisSafety

  /** A known DELETE of `id` under way, or how it was answered: refused only for a
      protected paste, and 200 only when the paste is gone. */
  ghost predicate Deleting(protectedOn: bool, s: State, id: Id, thread: Thread) {
    && thread.Remove? && thread.id == id && thread.known && id in s.filled && id in s.ever
    && (thread.rpc.Removed? ==>
          && (thread.rpc.status == 200 || thread.rpc.status == 403 || thread.rpc.status == 500)
          && (thread.rpc.status == 403 ==> protectedOn && s.ever[id].paste.meta.prot)
          && (thread.rpc.status == 200 ==> id in s.fate))
  }

  lemma OwnStepDeletes(protectedOn: bool, s: State, t: Tid, id: Id, fault: bool)
    requires HashOk(s, id) && t in s.threads && Deleting(protectedOn, s, id, s.threads[t])
    ensures var s' := Next(protectedOn, s, Run(t, fault));
      && t in s'.threads && Deleting(protectedOn, s', id, s'.threads[t])
      && (!fault && s.threads[t].rpc != Removed(500) ==> s'.threads[t].rpc != Removed(500))
  {
    LiveIs(s, id);
  }

  lemma OtherStepDeletes(protectedOn: bool, s: State, l: Label, t: Tid, id: Id)
    requires Enabled(s, l) && Grows(s, Next(protectedOn, s, l), id) && !(l.Run? && l.t == t)
    requires t in s.threads && Deleting(protectedOn, s, id, s.threads[t])
    ensures var s' := Next(protectedOn, s, l);
      t in s'.threads && s'.threads[t] == s.threads[t] && Deleting(protectedOn, s', id, s'.threads[t])
  {}

  /** One of the thread's own commands fails in the run. */
  ghost predicate OwnFault(run: seq<Label>, t: Tid) {
    Run(t, true) in run
  }

  lemma {:induction false} RunDeletes(protectedOn: bool, s: State, run: seq<Label>, t: Tid, id: Id)
    requires Inv(protectedOn, s, id) && Legal(protectedOn, s, run) && DeletesKnown(After(protectedOn, s, run), id)
    requires t in s.threads && Deleting(protectedOn, s, id, s.threads[t])
    ensures var k := After(protectedOn, s, run);
      && t in k.threads && Deleting(protectedOn, k, id, k.threads[t]) && Inv(protectedOn, k, id)
      && (k.threads[t].rpc == Removed(500) ==> OwnFault(run, t) || s.threads[t].rpc == Removed(500))
    decreases |run|
  {
    if run != [] {
      var l := run[0];
      DeletesAllAlong(protectedOn, s, run, id);
      NextKeeps(protectedOn, s, l, id);
      if l.Run? && l.t == t {
        OwnStepDeletes(protectedOn, s, t, id, l.fault);
      } else {
        OtherStepDeletes(protectedOn, s, l, t, id);
      }
      RunDeletes(protectedOn, Next(protectedOn, s, l), run[1..], t, id);
      assert run == [l] + run[1..];
    }
  }

  /** A DELETE of `id` that comes in known after `before`, and runs on among `run`. */
  ghost predicate DeleteComes(protectedOn: bool, now: int, before: seq<Label>, run: seq<Label>, t: Tid, id: Id) {
    var s, l := After(protectedOn, Init(now), before), Arrive(t, Remove(id, true, Guarding));
    && Legal(protectedOn, Init(now), before) && Enabled(s, l)
    && Legal(protectedOn, Next(protectedOn, s, l), run)
    && DeletesKnown(After(protectedOn, Next(protectedOn, s, l), run), id)
  }

  ghost function Later(protectedOn: bool, now: int, before: seq<Label>, run: seq<Label>, t: Tid, id: Id): State {
    var s := After(protectedOn, Init(now), before);
    After(protectedOn, Next(protectedOn, s, Arrive(t, Remove(id, true, Guarding))), run)
  }

  /** Main result: a known DELETE among any other requests, once it has ended, was refused
      only with the feature on and the paste saved as protected, failed only if one of
      its own commands did, and otherwise the paste is gone. */
  lemma DeleteAnswers(protectedOn: bool, now: int, before: seq<Label>, run: seq<Label>, t: Tid, id: Id, status: int)
    requires DeleteComes(protectedOn, now, before, run, t, id)
    requires var k := Later(protectedOn, now, before, run, t, id);
      t in k.threads && k.threads[t] == Remove(id, true, Removed(status))
    ensures var k := Later(protectedOn, now, before, run, t, id);
      && id in k.ever && (status == 200 || status == 403 || status == 500)
      && (status == 403 ==> protectedOn && k.ever[id].paste.meta.prot)
      && (status == 500 ==> OwnFault(run, t))
      && (status == 200 ==> id !in k.hashes)
  {
    var s, l := After(protectedOn, Init(now), before), Arrive(t, Remove(id, true, Guarding));
    var s1 := Next(protectedOn, s, l);
    DeletesAllAlong(protectedOn, s1, run, id);
    DeletesBefore(protectedOn, s, l, id);
    Reachable(protectedOn, now, before, id);
    NextKeeps(protectedOn, s, l, id);
    PublishedIsFilled(protectedOn, s, id);
    RunDeletes(protectedOn, s1, run, t, id);
  }

  /** Main result: so an unprotected published paste, or any with the feature off, is gone
      after a known DELETE of it whose commands did not fail. */
  lemma UnprotectedIsDeleted(protectedOn: bool, now: int, before: seq<Label>, run: seq<Label>, t: Tid, id: Id,
                             status: int)
    requires DeleteComes(protectedOn, now, before, run, t, id) && !OwnFault(run, t)
    requires var k := Later(protectedOn, now, before, run, t, id);
      && t in k.threads && k.threads[t] == Remove(id, true, Removed(status))
      && (protectedOn && id in k.ever ==> !k.ever[id].paste.meta.prot)
    ensures status == 200 && id !in Later(protectedOn, now, before, run, t, id).hashes
  {
    DeleteAnswers(protectedOn, now, before, run, t, id, status);
  }
}
