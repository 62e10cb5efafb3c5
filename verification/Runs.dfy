/** Runs of a transition system: a total step function folded over a sequence of actions. */
module Runs {

  function Iterate<W, A>(step: (W, A) -> W, w: W, actions: seq<A>): W
    decreases |actions|
  {
    if actions == [] then w else Iterate(step, step(w, actions[0]), actions[1..])
  }

  /** Running one piece after the other is running both. */
  lemma {:induction false} Append<W, A>(step: (W, A) -> W, w: W, a: seq<A>, b: seq<A>)
    ensures Iterate(step, w, a + b) == Iterate(step, Iterate(step, w, a), b)
    decreases |a|
  {
    if a == [] {
      assert a + b == b;
    } else {
      assert (a + b)[0] == a[0] && (a + b)[1..] == a[1..] + b;
      Append(step, step(w, a[0]), a[1..], b);
    }
  }

  lemma Snoc<W, A>(step: (W, A) -> W, w: W, actions: seq<A>, a: A)
    ensures Iterate(step, w, actions + [a]) == step(Iterate(step, w, actions), a)
  {
    Append(step, w, actions, [a]);
    One(step, Iterate(step, w, actions), a);
  }

  /** The state after one more action of a given run. */
  lemma Next<W, A>(step: (W, A) -> W, w: W, actions: seq<A>, n: nat)
    requires n < |actions|
    ensures Iterate(step, w, actions[..n + 1]) == step(Iterate(step, w, actions[..n]), actions[n])
  {
    assert actions[..n + 1] == actions[..n] + [actions[n]];
    Snoc(step, w, actions[..n], actions[n]);
  }

  /** What every step keeps, every run keeps. */
  lemma {:induction false} Keeps<W(!new), A(!new)>(step: (W, A) -> W, inv: W -> bool, w: W, actions: seq<A>)
    requires inv(w) && forall v: W, a: A :: inv(v) ==> inv(step(v, a))
    ensures inv(Iterate(step, w, actions))
    decreases |actions|
  {
    if actions != [] {
      Keeps(step, inv, step(w, actions[0]), actions[1..]);
    }
  }

  lemma Cons<W, A>(step: (W, A) -> W, w: W, a: A, rest: seq<A>)
    ensures Iterate(step, w, [a] + rest) == Iterate(step, step(w, a), rest)
  {
    assert ([a] + rest)[1..] == rest;
  }

  lemma One<W, A>(step: (W, A) -> W, w: W, a: A)
    ensures Iterate(step, w, [a]) == step(w, a)
  {
    assert Iterate(step, step(w, a), [a][1..]) == step(w, a);
  }

  lemma Two<W, A>(step: (W, A) -> W, w: W, a: A, b: A)
    ensures Iterate(step, w, [a, b]) == step(step(w, a), b)
  {
    Snoc(step, w, [a], b);
    One(step, w, a);
    assert [a] + [b] == [a, b];
  }

  lemma Three<W, A>(step: (W, A) -> W, w: W, a: A, b: A, c: A)
    ensures Iterate(step, w, [a, b, c]) == step(step(step(w, a), b), c)
  {
    Two(step, w, a, b);
    Snoc(step, w, [a, b], c);
    assert [a, b] + [c] == [a, b, c];
  }

  lemma Four<W, A>(step: (W, A) -> W, w: W, a: A, b: A, c: A, d: A)
    ensures Iterate(step, w, [a, b, c, d]) == step(step(step(step(w, a), b), c), d)
  {
    Three(step, w, a, b, c);
    Snoc(step, w, [a, b, c], d);
    assert [a, b, c] + [d] == [a, b, c, d];
  }

  // ------------------------------------------------ properties of whole runs

  /** Every state of the run is a good one. */
  ghost predicate Throughout<W, A>(step: (W, A) -> W, good: W -> bool, w: W, actions: seq<A>) {
    forall i :: 0 <= i <= |actions| ==> good(Iterate(step, w, actions[..i]))
  }

  /** No step of the run is a bad one. */
  ghost predicate Never<W, A>(step: (W, A) -> W, bad: (W, A) -> bool, w: W, actions: seq<A>) {
    forall i :: 0 <= i < |actions| ==> !bad(Iterate(step, w, actions[..i]), actions[i])
  }

  /** Both notions speak of the prefixes of a run, so they split into the shorter run and its last step. */
  lemma SplitLast<W, A>(
      step: (W, A) -> W, good: W -> bool, bad: (W, A) -> bool, w: W, actions: seq<A>, last: A)
    ensures Throughout(step, good, w, actions + [last])
       <==> Throughout(step, good, w, actions) && good(Iterate(step, w, actions + [last]))
    ensures Never(step, bad, w, actions + [last])
       <==> Never(step, bad, w, actions) && !bad(Iterate(step, w, actions), last)
  {
    var all, n := actions + [last], |actions|;
    assert forall i :: 0 <= i <= n ==> all[..i] == actions[..i];
    assert all[..n + 1] == all && actions[..n] == actions && all[n] == last;
    assert forall i :: 0 <= i < n ==> all[i] == actions[i];
    if Throughout(step, good, w, all) {
      assert good(Iterate(step, w, all[..n + 1]));
    }
  }

  /**
   * Where the invariant holds, a step from a good state leads to a good one exactly when it is not a bad
   * step. Then the same is exact for whole runs.
   */
  lemma {:induction false} ThroughoutIffNever<W(!new), A(!new)>(
      step: (W, A) -> W, inv: W -> bool, good: W -> bool, bad: (W, A) -> bool, w: W, actions: seq<A>)
    requires inv(w) && forall v: W, a: A :: inv(v) ==> inv(step(v, a))
    requires good(w) && forall v: W, a: A :: inv(v) && good(v) ==> (good(step(v, a)) <==> !bad(v, a))
    ensures Throughout(step, good, w, actions) <==> Never(step, bad, w, actions)
    decreases |actions|
  {
    if actions == [] {
      assert actions[..0] == [];
      assert Iterate(step, w, actions[..0]) == w;
    } else {
      var init, last := actions[..|actions| - 1], actions[|actions| - 1];
      assert actions == init + [last];
      ThroughoutIffNever(step, inv, good, bad, w, init);
      SplitLast(step, good, bad, w, init, last);
      Snoc(step, w, init, last);
      Keeps(step, inv, w, init);
      assert Throughout(step, good, w, init) ==> good(Iterate(step, w, init[..|init|]));
      assert init[..|init|] == init;
    }
  }
}
