/** Runs of the SQL machine put together from the front. */
module SqlRuns {
  import opened SqlMachine

  /** `run` is legal from `s` and ends in `k`. */
  ghost predicate Leads(cfg: Config, s: State, run: seq<Label>, k: State) {
    Legal(cfg, s, run) && After(cfg, s, run) == k
  }

  lemma LeadsFrom(cfg: Config, s: State, l: Label, run: seq<Label>, k: State)
    requires Enabled(cfg, s, l) && Leads(cfg, Next(cfg, s, l), run, k)
    ensures Leads(cfg, s, [l] + run, k)
  {
    assert ([l] + run)[1..] == run;
  }

  lemma LeadsOne(cfg: Config, s: State, l: Label)
    requires Enabled(cfg, s, l)
    ensures Leads(cfg, s, [l], Next(cfg, s, l))
  {
    LeadsFrom(cfg, s, l, [], Next(cfg, s, l));
  }

  lemma {:induction false} LeadsOnward(cfg: Config, s: State, a: seq<Label>, m: State, b: seq<Label>, k: State)
    requires Leads(cfg, s, a, m) && Leads(cfg, m, b, k)
    ensures Leads(cfg, s, a + b, k)
    decreases |a|
  {
    if a == [] {
      assert a + b == b;
    } else {
      LeadsOnward(cfg, Next(cfg, s, a[0]), a[1..], m, b, k);
      assert a + b == [a[0]] + (a[1..] + b);
      LeadsFrom(cfg, s, a[0], a[1..] + b, k);
    }
  }
}
