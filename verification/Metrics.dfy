// backtest/metrics.py and the regime table of backtest/run.py: one-pass drawdowns against their definitions.
module Metrics {
  import opened Types
  import opened Money
  import opened Backtest

  // ------------------------------------------------------------ the one-pass fold

  /** The highest value so far; nothing before the first one. */
  function Peak(navs: seq<real>): Option<real> {
    if navs == [] then None
    else
      var before, n := Peak(navs[..|navs| - 1]), navs[|navs| - 1];
      if before.Some? && before.value >= n then before else Some(n)
  }

  /** The largest fall from the running peak. */
  function Deepest(navs: seq<real>): real {
    if navs == [] then 0.0
    else Max(Deepest(navs[..|navs| - 1]), Fall(Peak(navs).value, navs[|navs| - 1]))
  }

  /** max_drawdown_pct; no peak yet stands for minus infinity. */
  method MaxDrawdownPct(navs: seq<real>) returns (worst: real)
    ensures worst == Deepest(navs)
  {
    var hwm: Option<real> := None;
    worst := 0.0;
    var i := 0;
    while i < |navs|
      invariant 0 <= i <= |navs|
      invariant hwm == Peak(navs[..i]) && worst == Deepest(navs[..i])
    {
      var n := navs[i];
      assert navs[..i + 1][..i] == navs[..i];
      if hwm.None? || n > hwm.value {
        hwm := Some(n);
      }
      if hwm.value > 0.0 {
        var dd := Units(hwm.value - n, hwm.value) * 100.0;
        if dd > worst {
          worst := dd;
        }
      }
      i := i + 1;
    }
    assert navs[..i] == navs;
  }

  // ------------------------------------------------------------ the quadratic definition

  /** The peak is the greatest element. */
  lemma {:induction false} PeakIsGreatest(navs: seq<real>)
    requires navs != []
    ensures Peak(navs).Some? && Peak(navs).value in navs
    ensures forall i :: 0 <= i < |navs| ==> navs[i] <= Peak(navs).value
  {
    var n := |navs| - 1;
    if n > 0 {
      PeakIsGreatest(navs[..n]);
      assert forall i :: 0 <= i < n ==> navs[i] == navs[..n][i];
    }
  }

  ghost predicate IsFall(navs: seq<real>, worst: real) {
    exists i, j :: 0 <= i <= j < |navs| && worst == Fall(navs[i], navs[j])
  }

  /** The one-pass result is nothing or the fall between two of the values, whatever their signs. */
  lemma {:induction false} DeepestIsAttained(navs: seq<real>)
    ensures Deepest(navs) == 0.0 || IsFall(navs, Deepest(navs))
  {
    if navs != [] {
      var n := |navs| - 1;
      DeepestIsAttained(navs[..n]);
      if Deepest(navs) == Deepest(navs[..n]) {
        if Deepest(navs) != 0.0 {
          var i, j :| 0 <= i <= j < n && Deepest(navs) == Fall(navs[..n][i], navs[..n][j]);
          assert navs[i] == navs[..n][i] && navs[j] == navs[..n][j];
        }
      } else {
        PeakIsGreatest(navs);
        var i :| 0 <= i < |navs| && navs[i] == Peak(navs).value;
        assert Deepest(navs) == Fall(navs[i], navs[n]);
      }
    }
  }

  /** No pair ending in a value that is not negative shows a deeper fall. */
  lemma {:induction false} DeepestBounds(navs: seq<real>, i: nat, j: nat)
    requires i <= j < |navs| && navs[j] >= 0.0
    ensures Fall(navs[i], navs[j]) <= Deepest(navs)
  {
    var n := |navs| - 1;
    if j < n {
      DeepestBounds(navs[..n], i, j);
    } else {
      PeakIsGreatest(navs);
      FallGrowsWithPeak(navs[i], Peak(navs).value, navs[j]);
    }
  }

  /** For histories without negative values the one pass gives exactly the maximum over all pairs. */
  lemma DeepestIsMaximum(navs: seq<real>, worst: real)
    requires navs != [] && forall i :: 0 <= i < |navs| ==> navs[i] >= 0.0
    ensures worst == Deepest(navs) <==>
            && IsFall(navs, worst)
            && forall i, j :: 0 <= i <= j < |navs| ==> Fall(navs[i], navs[j]) <= worst
  {
    forall i, j | 0 <= i <= j < |navs| ensures Fall(navs[i], navs[j]) <= Deepest(navs) {
      DeepestBounds(navs, i, j);
    }
    DeepestIsAttained(navs);
    assert Fall(navs[0], navs[0]) == 0.0 by {
      if navs[0] > 0.0 {
        DivideBack(0.0, navs[0]);
        assert Units(navs[0] - navs[0], navs[0]) == 0.0;
      }
    }
    assert IsFall(navs, Deepest(navs));
  }

  /** With a negative value it fails: from 1 to -1 is a fall of 200 percent, but the pass reports 150. */
  lemma NegativeValueIsMissed()
    ensures var navs := [1.0, 2.0, -1.0];
            Deepest(navs) == 150.0 && Fall(navs[0], navs[2]) == 200.0
  {
    var navs := [1.0, 2.0, -1.0];
    assert navs[..2] == [1.0, 2.0] && navs[..2][..1] == [1.0] && navs[..2][..1][..0] == [];
    assert Peak([1.0]) == Some(1.0) && Deepest([1.0]) == 0.0;
    assert Peak([1.0, 2.0]) == Some(2.0) && Deepest([1.0, 2.0]) == 0.0;
    assert Peak(navs) == Some(2.0);
  }

  // ------------------------------------------------------------ regimes

  /** The peak carried by the regime table, which starts at -1e18 instead of minus infinity. */
  const BOTTOM := -1000000000000000000.0

  function Carried(navs: seq<real>): real {
    if navs == [] then BOTTOM else Max(Carried(navs[..|navs| - 1]), navs[|navs| - 1])
  }

  /** The deepest fall from the carried peak among the values from lo up to hi. */
  function Segment(navs: seq<real>, lo: nat, hi: nat): real
    requires hi <= |navs|
    decreases hi
  {
    if hi <= lo then 0.0 else Max(Segment(navs, lo, hi - 1), Fall(Carried(navs[..hi]), navs[hi - 1]))
  }

  /** Regime bounds that start at zero, do not go back, and reach the end of the history. */
  ghost predicate Covers(bounds: seq<nat>, n: nat) {
    |bounds| > 1 && bounds[0] == 0 && bounds[|bounds| - 1] >= n
    && forall i :: 0 <= i < |bounds| - 1 ==> bounds[i] <= bounds[i + 1]
  }

  function Cut(n: nat, hi: nat): nat { if hi <= n then hi else n }

  /** Regime i before rounding. */
  function Regime(navs: seq<real>, bounds: seq<nat>, i: nat): real
    requires i + 1 < |bounds|
  {
    Segment(navs, bounds[i], Cut(|navs|, bounds[i + 1]))
  }

  /** _per_regime_drawdown */
  method PerRegimeDrawdown(navs: seq<real>, bounds: seq<nat>) returns (worst: seq<real>)
    requires Covers(bounds, |navs|)
    ensures |worst| == |bounds| - 1
    ensures forall i :: 0 <= i < |worst| ==> worst[i] == Round4(Regime(navs, bounds, i))
  {
    worst := [];
    var hwm := BOTTOM;
    var i := 0;
    while i < |bounds| - 1
      invariant 0 <= i <= |bounds| - 1 && |worst| == i
      invariant hwm == Carried(navs[..Cut(|navs|, bounds[i])])
      invariant forall k :: 0 <= k < i ==> worst[k] == Round4(Regime(navs, bounds, k))
    {
      var lo, hi := bounds[i], Cut(|navs|, bounds[i + 1]);
      var mdd := 0.0;
      var h := lo;
      while h < hi
        invariant lo <= h && (h <= hi || h == lo)
        invariant hwm == Carried(navs[..Cut(|navs|, h)])
        invariant mdd == Segment(navs, lo, Cut(|navs|, h)) >= 0.0
      {
        var n := navs[h];
        assert navs[..h + 1][..h] == navs[..h];
        if n > hwm {
          hwm := n;
        }
        if hwm > 0.0 {
          var dd := Units(hwm - n, hwm) * 100.0;
          if dd > mdd {
            mdd := dd;
          }
        }
        h := h + 1;
      }
      worst := worst + [Round4(mdd)];
      i := i + 1;
    }
  }

  lemma {:induction false} CarriedIsPeak(navs: seq<real>)
    requires navs != []
    ensures Carried(navs) == Max(BOTTOM, Peak(navs).value)
  {
    if |navs| > 1 {
      CarriedIsPeak(navs[..|navs| - 1]);
    }
  }

  /** Starting the peak at -1e18 makes no difference to any fall. */
  lemma {:induction false} WholeSegment(navs: seq<real>, n: nat)
    requires n <= |navs|
    ensures Segment(navs, 0, n) == Deepest(navs[..n])
  {
    if n > 0 {
      WholeSegment(navs, n - 1);
      assert navs[..n][..n - 1] == navs[..n - 1];
      CarriedIsPeak(navs[..n]);
    }
  }

  lemma {:induction false} SegmentsJoin(navs: seq<real>, lo: nat, mid: nat, hi: nat)
    requires lo <= mid <= hi <= |navs|
    ensures Segment(navs, lo, hi) == Max(Segment(navs, lo, mid), Segment(navs, mid, hi))
    ensures Segment(navs, lo, mid) >= 0.0
    decreases hi
  {
    if mid < hi {
      SegmentsJoin(navs, lo, mid, hi - 1);
    }
  }

  /** The greatest of the first k regimes. */
  function WorstRegime(navs: seq<real>, bounds: seq<nat>, k: nat): real
    requires k < |bounds|
  {
    if k == 0 then 0.0 else Max(WorstRegime(navs, bounds, k - 1), Regime(navs, bounds, k - 1))
  }

  lemma {:induction false} RegimesJoin(navs: seq<real>, bounds: seq<nat>, k: nat)
    requires Covers(bounds, |navs|) && k < |bounds|
    ensures WorstRegime(navs, bounds, k) == Segment(navs, 0, Cut(|navs|, bounds[k]))
  {
    if k > 0 {
      RegimesJoin(navs, bounds, k - 1);
      var lo, hi := Cut(|navs|, bounds[k - 1]), Cut(|navs|, bounds[k]);
      SegmentsJoin(navs, 0, lo, hi);
      assert Regime(navs, bounds, k - 1) == Segment(navs, lo, hi);
    }
  }

  /** The worst regime, with the peak carried across the bounds, is the drawdown of the whole run. */
  lemma RegimesCoverTheRun(navs: seq<real>, bounds: seq<nat>)
    requires Covers(bounds, |navs|)
    ensures WorstRegime(navs, bounds, |bounds| - 1) == Deepest(navs)
  {
    RegimesJoin(navs, bounds, |bounds| - 1);
    WholeSegment(navs, |navs|);
    assert navs[..|navs|] == navs;
  }

  // ------------------------------------------------------------ the same after rounding

  lemma Round4KeepsOrder(x: real, y: real)
    requires x <= y
    ensures Round4(x) <= Round4(y)
  {
    RoundingKeepsOrder(x * 10000.0, y * 10000.0);
  }

  lemma {:induction false} WorstRegimeIsAttained(navs: seq<real>, bounds: seq<nat>, k: nat)
    requires k < |bounds|
    ensures forall i :: 0 <= i < k ==> Regime(navs, bounds, i) <= WorstRegime(navs, bounds, k)
    ensures k > 0 ==> exists i :: 0 <= i < k && Regime(navs, bounds, i) == WorstRegime(navs, bounds, k)
  {
    if k > 0 {
      WorstRegimeIsAttained(navs, bounds, k - 1);
      if k > 1 && WorstRegime(navs, bounds, k) == WorstRegime(navs, bounds, k - 1) {
        var i :| 0 <= i < k - 1 && Regime(navs, bounds, i) == WorstRegime(navs, bounds, k - 1);
      } else {
        assert Regime(navs, bounds, k - 1) == WorstRegime(navs, bounds, k);
      }
    }
  }

  /** The published figures agree as well: the greatest rounded regime is the rounded whole-run drawdown. */
  lemma RoundedRegimesCoverTheRun(navs: seq<real>, bounds: seq<nat>)
    requires Covers(bounds, |navs|)
    ensures forall i :: 0 <= i < |bounds| - 1 ==> Round4(Regime(navs, bounds, i)) <= Round4(Deepest(navs))
    ensures exists i :: 0 <= i < |bounds| - 1 && Round4(Regime(navs, bounds, i)) == Round4(Deepest(navs))
  {
    RegimesCoverTheRun(navs, bounds);
    WorstRegimeIsAttained(navs, bounds, |bounds| - 1);
    forall i | 0 <= i < |bounds| - 1 ensures Round4(Regime(navs, bounds, i)) <= Round4(Deepest(navs)) {
      Round4KeepsOrder(Regime(navs, bounds, i), Deepest(navs));
    }
    var i :| 0 <= i < |bounds| - 1 && Regime(navs, bounds, i) == WorstRegime(navs, bounds, |bounds| - 1);
  }

  // ------------------------------------------------------------ the first breach

  /** first_breach_hour */
  method FirstBreachHour(drawdowns: seq<real>, gate: real) returns (hour: Option<nat>)
    ensures hour.None? <==> forall t :: 0 <= t < |drawdowns| ==> drawdowns[t] < gate
    ensures hour.Some? ==> hour.value < |drawdowns| && drawdowns[hour.value] >= gate
                           && forall t :: 0 <= t < hour.value ==> drawdowns[t] < gate
  {
    for h := 0 to |drawdowns|
      invariant forall t :: 0 <= t < h ==> drawdowns[t] < gate
    {
      if drawdowns[h] >= gate {
        return Some(h);
      }
    }
    hour := None;
  }

  /** A breach shown by a history that was only rebaselined downwards is a true breach. */
  lemma ShownBreachIsReal(start: real, es: seq<Event>, t: nat, gate: real)
    requires RebasesDown(start, es) && forall i :: 0 <= i < |es| ==> es[i].nav >= 0.0
    requires t < |Run(start, es).navs| && t < |Run(start, es).drawdowns| && Run(start, es).drawdowns[t] >= gate
    ensures TrueFall(start, Run(start, es).navs, t) >= gate
  {
    RebasedUnderstates(start, es);
  }
}
