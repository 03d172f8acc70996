/** Paths of any state machine: which states one state leads to. */
module Runs {
  ghost predicate IsPath<S(!new)>(next: (S, S) -> bool, path: seq<S>, s: S, t: S) {
    && path != [] && path[0] == s && path[|path| - 1] == t
    && forall i :: 0 < i < |path| ==> FollowsAt(next, path, i)
  }

  ghost predicate FollowsAt<S>(next: (S, S) -> bool, path: seq<S>, i: int)
    requires 0 < i < |path|
  {
    next(path[i - 1], path[i])
  }

  /** `t` is `s` or comes after it. */
  ghost predicate Leads<S(!new)>(next: (S, S) -> bool, s: S, t: S) {
    exists path :: IsPath(next, path, s, t)
  }

  lemma LeadsToItself<S(!new)>(next: (S, S) -> bool, s: S)
    ensures Leads(next, s, s)
  {
    assert IsPath(next, [s], s, s);
  }

  lemma LeadsOn<S(!new)>(next: (S, S) -> bool, s: S, t: S, u: S)
    requires Leads(next, s, t) && next(t, u)
    ensures Leads(next, s, u)
  {
    var path :| IsPath(next, path, s, t);
    var longer := path + [u];
    forall i | 0 < i < |longer|
      ensures FollowsAt(next, longer, i)
    {
      if i < |path| {
        assert FollowsAt(next, path, i);
      }
    }
    assert IsPath(next, longer, s, u);
  }
}
