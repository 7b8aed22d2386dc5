/** Runs of a step system given by its transition function. */
module Runs {
  import opened Graphs

  /** `steps` leads from `s` to `t`; `next` is None where a step is not possible. */
  ghost predicate Leads<S, T>(next: (S, T) -> Option<S>, s: S, steps: seq<T>, t: S)
    decreases |steps|
  {
    if steps == [] then s == t
    else next(s, steps[0]).Some? && Leads(next, next(s, steps[0]).value, steps[1..], t)
  }

  lemma {:induction false} LeadsOn<S, T>(next: (S, T) -> Option<S>, s: S, first: seq<T>, t: S, second: seq<T>, u: S)
    requires Leads(next, s, first, t) && Leads(next, t, second, u)
    ensures Leads(next, s, first + second, u)
    decreases |first|
  {
    if first == [] {
      assert first + second == second;
    } else {
      LeadsOn(next, next(s, first[0]).value, first[1..], t, second, u);
      assert (first + second)[1..] == first[1..] + second;
    }
  }

  lemma LeadsOneMore<S, T>(next: (S, T) -> Option<S>, s: S, steps: seq<T>, t: S, step: T, u: S)
    requires Leads(next, s, steps, t) && next(t, step) == Some(u)
    ensures Leads(next, s, steps + [step], u)
  {
    assert [step][1..] == [];
    assert Leads(next, t, [step], u);
    LeadsOn(next, s, steps, t, [step], u);
  }

  /** The state before the last step of a run. */
  lemma {:induction false} LeadsButLast<S, T>(next: (S, T) -> Option<S>, s: S, steps: seq<T>, t: S) returns (u: S)
    requires steps != [] && Leads(next, s, steps, t)
    ensures Leads(next, s, steps[..|steps| - 1], u) && next(u, steps[|steps| - 1]) == Some(t)
    decreases |steps|
  {
    if |steps| == 1 {
      u := s;
      assert steps[1..] == [] && steps[..0] == [];
    } else {
      u := LeadsButLast(next, next(s, steps[0]).value, steps[1..], t);
      assert steps[..|steps| - 1][1..] == steps[1..][..|steps| - 2];
    }
  }
}
