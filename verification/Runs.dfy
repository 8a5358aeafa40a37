/** Putting runs of the sync system together. */
module Runs {
  import opened SyncProtocol

  /** From s the actions can be run and end in t: a run of t's can follow them. */
  ghost predicate Leads(s: Sys, acts: seq<Action>, t: Sys)
  {
    forall rest: seq<Action> :: t.Runs(rest) ==> s.Runs(acts + rest) && s.Exec(acts + rest) == t.Exec(rest)
  }

  lemma LeadsOn(s: Sys, a: seq<Action>, t: Sys, b: seq<Action>, u: Sys)
    requires Leads(s, a, t) && Leads(t, b, u)
    ensures Leads(s, a + b, u)
  {
    forall rest: seq<Action> | u.Runs(rest)
      ensures s.Runs((a + b) + rest) && s.Exec((a + b) + rest) == u.Exec(rest)
    {
      assert (a + b) + rest == a + (b + rest);
    }
  }

  lemma LeadsTo(s: Sys, acts: seq<Action>, t: Sys)
    requires Leads(s, acts, t)
    ensures s.Runs(acts) && s.Exec(acts) == t
  {
    assert acts + [] == acts;
    assert t.Runs([]) && t.Exec([]) == t;
  }

  lemma LeadsTwo(s: Sys, a: Action, b: Action)
    requires s.Enabled(a) && s.Step(a).Enabled(b)
    ensures Leads(s, [a, b], s.Step(a).Step(b))
  {
    LeadsOn(s, [a], s.Step(a), [b], s.Step(a).Step(b));
    assert [a] + [b] == [a, b];
  }

  lemma LeadsThree(s: Sys, a: Action, b: Action, c: Action)
    requires s.Enabled(a) && s.Step(a).Enabled(b) && s.Step(a).Step(b).Enabled(c)
    ensures Leads(s, [a, b, c], s.Step(a).Step(b).Step(c))
  {
    LeadsTwo(s.Step(a), b, c);
    LeadsOn(s, [a], s.Step(a), [b, c], s.Step(a).Step(b).Step(c));
    assert [a] + [b, c] == [a, b, c];
  }

  lemma NoActions(s: Sys)
    ensures Leads(s, [], s)
  {
    assert forall rest: seq<Action> :: [] + rest == rest;
  }
}
