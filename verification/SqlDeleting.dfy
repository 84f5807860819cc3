/** What a known DELETE on SQL comes to among any other requests. */
module SqlDeleting {
  import opened Bytes
  import opened SqlInvariant
  import opened SqlMachine
  import opened SqlSafety

  /** A known DELETE of `id` under way, or how it was answered: refused only for a
      protected paste, and 200 only when the paste is gone. */
  ghost predicate Deleting(cfg: Config, s: State, id: Id, thread: Thread) {
    && thread.Remove? && thread.id == id && thread.known && id in s.ever
    && (thread.rpc.Removed? ==>
          && (thread.rpc.status == 200 || thread.rpc.status == 403 || thread.rpc.status == 500)
          && (thread.rpc.status == 403 ==> cfg.protectedOn && s.ever[id].row.prot)
          && (thread.rpc.status == 200 ==> id in s.fate))
    && (thread.rpc.Guarding? ==> cfg.protectedOn)
  }

  lemma OwnStepDeletes(cfg: Config, s: State, id: Id, rpc: RemovePc, env: Env, t: Tid)
    requires Ledger(s) && RemoveOk(cfg, s, id, true, rpc) && Deleting(cfg, s, id, Remove(id, true, rpc))
    ensures var (next, e) := RemoveStep(cfg, s, id, true, rpc, env);
      && Deleting(cfg, Apply(s, t, e), id, next)
      && (!env.fault && rpc != Removed(500) ==> next.rpc != Removed(500))
  {}

  lemma OtherStepDeletes(cfg: Config, s: State, l: Label, t: Tid, id: Id)
    requires Enabled(cfg, s, l) && Grows(s, Next(cfg, s, l)) && !(l.Run? && l.t == t)
    requires t in s.threads && Deleting(cfg, s, id, s.threads[t])
    ensures var s' := Next(cfg, s, l);
      t in s'.threads && s'.threads[t] == s.threads[t] && Deleting(cfg, s', id, s'.threads[t])
  {}

  lemma LabelDeletes(cfg: Config, s: State, l: Label, t: Tid, id: Id)
    requires Inv(cfg, s) && Enabled(cfg, s, l) && Grows(s, Next(cfg, s, l))
    requires t in s.threads && Deleting(cfg, s, id, s.threads[t])
    ensures var s' := Next(cfg, s, l);
      && t in s'.threads && Deleting(cfg, s', id, s'.threads[t])
      && (s.threads[t].rpc != Removed(500) && s'.threads[t].rpc == Removed(500) ==>
            l.Run? && l.t == t && l.env.fault)
  {
    if l.Run? && l.t == t {
      assert ThreadOk(cfg, s, t, s.threads[t]);
      OwnStepDeletes(cfg, s, id, s.threads[t].rpc, l.env, t);
    } else {
      OtherStepDeletes(cfg, s, l, t, id);
    }
  }

  /** One of the thread's own statements fails in the run. */
  ghost predicate OwnFault(run: seq<Label>, t: Tid) {
    exists l :: l in run && l.Run? && l.t == t && l.env.fault
  }

  lemma {:induction false} RunDeletes(cfg: Config, s: State, run: seq<Label>, t: Tid, id: Id)
    requires Inv(cfg, s) && Lawful(cfg.aead) && Legal(cfg, s, run)
    requires t in s.threads && Deleting(cfg, s, id, s.threads[t])
    ensures var k := After(cfg, s, run);
      && t in k.threads && Deleting(cfg, k, id, k.threads[t]) && Inv(cfg, k)
      && (k.threads[t].rpc == Removed(500) ==> OwnFault(run, t) || s.threads[t].rpc == Removed(500))
    decreases |run|
  {
    if run != [] {
      NextKeeps(cfg, s, run[0]);
      LabelDeletes(cfg, s, run[0], t, id);
      RunDeletes(cfg, Next(cfg, s, run[0]), run[1..], t, id);
      assert forall l :: l in run[1..] ==> l in run;
    }
  }

  /** A DELETE of `id` that comes in known after `before`, and runs on among `run`. */
  ghost predicate DeleteComes(cfg: Config, now: int, before: seq<Label>, run: seq<Label>, t: Tid, id: Id) {
    var s, l := After(cfg, Init(now), before), Arrive(t, Start(cfg, id));
    Legal(cfg, Init(now), before) && Enabled(cfg, s, l) && Legal(cfg, Next(cfg, s, l), run)
  }

  /** How a known DELETE starts. */
  function Start(cfg: Config, id: Id): Thread {
    Remove(id, true, if cfg.protectedOn then Guarding(Select) else Erasing)
  }

  ghost function Later(cfg: Config, now: int, before: seq<Label>, run: seq<Label>, t: Tid, id: Id): State {
    After(cfg, Next(cfg, After(cfg, Init(now), before), Arrive(t, Start(cfg, id))), run)
  }

  /** Main result: a known DELETE among any other requests, once it has ended, was refused
      only with the feature on and the paste inserted as protected, failed only if one
      of its own statements did, and otherwise the row is gone for good. */
  lemma DeleteAnswers(cfg: Config, now: int, before: seq<Label>, run: seq<Label>, t: Tid, id: Id, status: int)
    requires Lawful(cfg.aead) && DeleteComes(cfg, now, before, run, t, id)
    requires var k := Later(cfg, now, before, run, t, id);
      t in k.threads && k.threads[t] == Remove(id, true, Removed(status))
    ensures var k := Later(cfg, now, before, run, t, id);
      && id in k.ever && (status == 200 || status == 403 || status == 500)
      && (status == 403 ==> cfg.protectedOn && k.ever[id].row.prot)
      && (status == 500 ==> OwnFault(run, t))
      && (status == 200 ==> id !in k.rows)
  {
    var s, l := After(cfg, Init(now), before), Arrive(t, Start(cfg, id));
    Reachable(cfg, now, before);
    NextKeeps(cfg, s, l);
    assert ThreadOk(cfg, Next(cfg, s, l), t, Start(cfg, id));
    RunDeletes(cfg, Next(cfg, s, l), run, t, id);
  }

  /** Main result: so an unprotected published paste, or any with the feature off, is gone
      after a known DELETE of it whose statements did not fail. */
  lemma UnprotectedIsDeleted(cfg: Config, now: int, before: seq<Label>, run: seq<Label>, t: Tid, id: Id, status: int)
    requires Lawful(cfg.aead) && DeleteComes(cfg, now, before, run, t, id) && !OwnFault(run, t)
    requires var k := Later(cfg, now, before, run, t, id);
      && t in k.threads && k.threads[t] == Remove(id, true, Removed(status))
      && (cfg.protectedOn && id in k.ever ==> !k.ever[id].row.prot)
    ensures status == 200 && id !in Later(cfg, now, before, run, t, id).rows
  {
    DeleteAnswers(cfg, now, before, run, t, id, status);
  }
}
