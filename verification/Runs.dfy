// Runs of any step function, and what holds at every step of one.
module Runs {

  function Fold<S, F>(step: (S, F) -> S, s: S, fs: seq<F>): S {
    if fs == [] then s else step(Fold(step, s, fs[..|fs| - 1]), fs[|fs| - 1])
  }

  /** At every step of the run, the state before it and its input satisfy a condition. */
  ghost predicate Along<S, F>(step: (S, F) -> S, ok: (S, F) -> bool, s: S, fs: seq<F>) {
    forall i :: 0 <= i < |fs| ==> OkAt(step, ok, s, fs, i)
  }

  ghost predicate OkAt<S, F>(step: (S, F) -> S, ok: (S, F) -> bool, s: S, fs: seq<F>, i: nat)
    requires i < |fs|
  {
    ok(Fold(step, s, fs[..i]), fs[i])
  }

  lemma AlongPrefix<S, F>(step: (S, F) -> S, ok: (S, F) -> bool, s: S, fs: seq<F>, n: nat)
    requires n <= |fs| && Along(step, ok, s, fs)
    ensures Along(step, ok, s, fs[..n]) && (n < |fs| ==> ok(Fold(step, s, fs[..n]), fs[n]))
  {
    forall i | 0 <= i < n ensures OkAt(step, ok, s, fs[..n], i) {
      assert OkAt(step, ok, s, fs, i) && fs[..n][..i] == fs[..i];
    }
    if n < |fs| {
      assert OkAt(step, ok, s, fs, n);
    }
  }

  lemma FoldNext<S, F>(step: (S, F) -> S, s: S, fs: seq<F>, n: nat)
    requires n < |fs|
    ensures Fold(step, s, fs[..n + 1]) == step(Fold(step, s, fs[..n]), fs[n])
  {
    assert fs[..n + 1][..n] == fs[..n];
  }

  /** What every such step keeps holds at the end of the run. */
  lemma {:induction false} Invariant<S(!new), F(!new)>(step: (S, F) -> S, ok: (S, F) -> bool, inv: S -> bool,
                                                       s: S, fs: seq<F>)
    requires inv(s) && Along(step, ok, s, fs)
    requires forall t, f :: inv(t) && ok(t, f) ==> inv(step(t, f))
    ensures inv(Fold(step, s, fs))
  {
    if fs != [] {
      var n := |fs| - 1;
      AlongPrefix(step, ok, s, fs, n);
      Invariant(step, ok, inv, s, fs[..n]);
    }
  }
}
