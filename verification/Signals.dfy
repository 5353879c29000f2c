// agent/strategy/signals.py: market data to a per-token regime read, and the ranking of entries.
module Signals {
  import opened Types
  import opened Money

  datatype Regime = RiskOn | Neutral | RiskOff

  function Sign(x: real): int { if x > 0.0 then 1 else if x < 0.0 then -1 else 0 }

  function Classify(v: TokenView, volMax: real): Regime {
    if v.pct1h.None? || v.pct4h.None? then Neutral
    else
      var s1 := Sign(v.pct1h.value);
      var s4 := Sign(v.pct4h.value);
      var agree := s1 == s4 && s1 != 0;
      if v.vol24h.Some? && v.vol24h.value >= volMax then RiskOff
      else if !agree then Neutral
      else if s1 > 0 then RiskOn
      else RiskOff
  }

  function OrZero(x: Option<real>): real { if x.Some? then x.value else 0.0 }

  /** Strength of the agreeing momentum, less the volatility penalty. */
  function Score(v: TokenView): real {
    Abs(OrZero(v.pct4h)) + Abs(OrZero(v.pct1h)) - OrZero(v.vol24h)
  }

  predicate BestFirst(ranked: seq<TokenView>) {
    forall i, j :: 0 <= i < j < |ranked| ==> Score(ranked[i]) >= Score(ranked[j])
  }

  /** Stable insertion: an equal score stays behind the earlier view. */
  function Place(v: TokenView, ranked: seq<TokenView>): (r: seq<TokenView>)
    requires BestFirst(ranked)
    ensures BestFirst(r)
    ensures forall i :: 0 <= i < |r| ==> r[i] == v || r[i] in ranked
  {
    if ranked == [] || Score(ranked[|ranked| - 1]) >= Score(v) then ranked + [v]
    else
      var n := |ranked| - 1;
      Place(v, ranked[..n]) + [ranked[n]]
  }

  lemma {:induction false} PlaceAdds(v: TokenView, ranked: seq<TokenView>)
    requires BestFirst(ranked)
    ensures multiset(Place(v, ranked)) == multiset(ranked) + multiset{v}
  {
    if ranked != [] && Score(ranked[|ranked| - 1]) < Score(v) {
      var n := |ranked| - 1;
      assert ranked == ranked[..n] + [ranked[n]];
      PlaceAdds(v, ranked[..n]);
    }
  }

  function RankEntries(views: seq<TokenView>, volMax: real): (r: seq<TokenView>)
    ensures BestFirst(r)
  {
    if views == [] then []
    else
      var n := |views| - 1;
      var ranked := RankEntries(views[..n], volMax);
      if Classify(views[n], volMax) == RiskOn then Place(views[n], ranked) else ranked
  }

  /** The ranking holds exactly the risk-on views, each as often as it was given. */
  lemma {:induction false} RankedAreRiskOn(views: seq<TokenView>, volMax: real, v: TokenView)
    ensures multiset(RankEntries(views, volMax))[v] ==
              if Classify(v, volMax) == RiskOn then multiset(views)[v] else 0
  {
    if views != [] {
      var n := |views| - 1;
      assert views == views[..n] + [views[n]];
      RankedAreRiskOn(views[..n], volMax, v);
      PlaceAdds(views[n], RankEntries(views[..n], volMax));
    }
  }

  /** The source's loop over the views. */
  method Rank(views: seq<TokenView>, volMax: real) returns (ranked: seq<TokenView>)
    ensures ranked == RankEntries(views, volMax)
  {
    ranked := [];
    for i := 0 to |views|
      invariant ranked == RankEntries(views[..i], volMax)
    {
      assert views[..i + 1][..i] == views[..i];
      if Classify(views[i], volMax) == RiskOn {
        ranked := Place(views[i], ranked);
      }
    }
    assert views[..|views|] == views;
  }

  /** Risk is taken only on agreeing upward momentum under the volatility ceiling. */
  lemma RiskOnMeansAgreement(v: TokenView, volMax: real)
    ensures Classify(v, volMax) == RiskOn <==>
              v.pct1h.Some? && v.pct1h.value > 0.0 && v.pct4h.Some? && v.pct4h.value > 0.0
              && (v.vol24h.Some? ==> v.vol24h.value < volMax)
  {
  }
}
