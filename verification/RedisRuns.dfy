/** Runs of the Redis machine put together from the front. */
module RedisRuns {
  import opened RedisMachine

  /** `run` is legal from `s` and ends in `k`. */
  ghost predicate Leads(protectedOn: bool, s: State, run: seq<Label>, k: State) {
    Legal(protectedOn, s, run) && After(protectedOn, s, run) == k
  }

  lemma LeadsFrom(protectedOn: bool, s: State, l: Label, run: seq<Label>, k: State)
    requires Enabled(s, l) && Leads(protectedOn, Next(protectedOn, s, l), run, k)
    ensures Leads(protectedOn, s, [l] + run, k)
  {
    assert ([l] + run)[1..] == run;
  }

  lemma LeadsOne(protectedOn: bool, s: State, l: Label)
    requires Enabled(s, l)
    ensures Leads(protectedOn, s, [l], Next(protectedOn, s, l))
  {
    LeadsFrom(protectedOn, s, l, [], Next(protectedOn, s, l));
  }

  lemma {:induction false} LeadsOnward(protectedOn: bool, s: State, a: seq<Label>, m: State, b: seq<Label>, k: State)
    requires Leads(protectedOn, s, a, m) && Leads(protectedOn, m, b, k)
    ensures Leads(protectedOn, s, a + b, k)
    decreases |a|
  {
    if a == [] {
      assert a + b == b;
    } else {
      LeadsOnward(protectedOn, Next(protectedOn, s, a[0]), a[1..], m, b, k);
      assert a + b == [a[0]] + (a[1..] + b);
      LeadsFrom(protectedOn, s, a[0], a[1..] + b, k);
    }
  }
}
