// Trade spacing over whole runs: the fixed interval of the policy engine, and the one trade that escapes it.
module Spacing {
  import opened Types
  import opened Money
  import opened Survival
  import opened Core
  import Engine
  import Ladder
  import Signals

  /** An order that filled: when, and whether it was clamped to its exposure room. */
  datatype Execution = Execution(at: real, roomClamped: bool)

  /** The ledger a pass decides on. */
  function AtDecision(l: Ledger, p: Pass, cfg: Config): Ledger {
    Marked(Reconciled(l, p, cfg), PriceMap(p.feed.views))
  }

  function RoomClamped(m: Ledger, f: Feed, cfg: Config): bool {
    Engine.RoomBinds(Proposal(m, f, cfg), EngineView(m, f), cfg)
  }

  function ExecutedBy(l: Ledger, p: Pass, cfg: Config): seq<Execution> {
    var m := AtDecision(l, p, cfg);
    if Orders(m, p.feed, cfg) && p.feed.fills then [Execution(p.feed.now, RoomClamped(m, p.feed, cfg))] else []
  }

  /** Every order of a run that filled, in order. */
  function Executions(l: Ledger, passes: seq<Pass>, cfg: Config): seq<Execution> {
    if passes == [] then []
    else
      var n := |passes| - 1;
      Executions(l, passes[..n], cfg) + ExecutedBy(Run(l, passes[..n], cfg), passes[n], cfg)
  }

  /** The clock is positive and does not run backwards. */
  ghost predicate Clocked(passes: seq<Pass>) {
    forall i, j :: 0 <= i <= j < |passes| ==> 0.0 < passes[i].feed.now <= passes[j].feed.now
  }

  /** The ledger knows the last execution, and none is later. */
  ghost predicate Remembers(l: Ledger, xs: seq<Execution>, now: real) {
    forall x :: x in xs ==> 0.0 < x.at <= l.lastTrade <= now
  }

  /** Every execution that was not clamped to its room comes the interval or more after all before it. */
  ghost predicate WellSpaced(xs: seq<Execution>, interval: real) {
    forall i, j :: 0 <= i < j < |xs| && !xs[j].roomClamped ==> xs[j].at - xs[i].at >= interval
  }

  lemma PassTime(l: Ledger, p: Pass, cfg: Config)
    ensures AtDecision(l, p, cfg).lastTrade == l.lastTrade
    ensures Passed(l, p, cfg).lastTrade == if ExecutedBy(l, p, cfg) != [] then p.feed.now else l.lastTrade
  {
  }

  /** An order that filled was spaced from the last trade the ledger remembers, or clamped to its room. */
  lemma OrderIsSpaced(m: Ledger, f: Feed, cfg: Config)
    requires Orders(m, f, cfg) && m.lastTrade != 0.0
    ensures RoomClamped(m, f, cfg) || f.now - m.lastTrade >= cfg.risk.minInterval
  {
    var pv := EngineView(m, f);
    Engine.SpacingUnlessRoomClamped(Proposal(m, f, cfg), pv, Max(0.0, f.now - f.dataTs), cfg,
                                    pv.tradesLastHour, pv.sinceLastTrade);
  }

  lemma PassIsSpaced(l: Ledger, p: Pass, cfg: Config, xs: seq<Execution>, before: real)
    requires Remembers(l, xs, before) && WellSpaced(xs, cfg.risk.minInterval)
    requires 0.0 < p.feed.now && before <= p.feed.now
    ensures var ys := xs + ExecutedBy(l, p, cfg);
            Remembers(Passed(l, p, cfg), ys, p.feed.now) && WellSpaced(ys, cfg.risk.minInterval)
  {
    PassTime(l, p, cfg);
    if ExecutedBy(l, p, cfg) != [] && xs != [] {
      assert xs[0] in xs;
      OrderIsSpaced(AtDecision(l, p, cfg), p.feed, cfg);
    }
  }

  /**
   * Over every run, reconciled or not, under every config: an executed trade comes the trade interval or more after
   * every earlier one, unless it was clamped to its exposure room.
   */
  lemma {:induction false} RunIsSpaced(l: Ledger, passes: seq<Pass>, cfg: Config)
    requires Clocked(passes)
    ensures WellSpaced(Executions(l, passes, cfg), cfg.risk.minInterval)
    ensures Remembers(Run(l, passes, cfg), Executions(l, passes, cfg),
                      if passes == [] then 0.0 else passes[|passes| - 1].feed.now)
  {
    if passes != [] {
      var n := |passes| - 1;
      RunIsSpaced(l, passes[..n], cfg);
      PassIsSpaced(Run(l, passes[..n], cfg), passes[n], cfg, Executions(l, passes[..n], cfg),
                   if n == 0 then 0.0 else passes[n - 1].feed.now);
    }
  }

  // ------------------------------------------------------------ the strategy meets the exception by itself

  /** A book with little room left: 52.994 dollars of WBNB and the rest of 500 in cash, one second after a trade. */
  const HELD := Holding("WBNB", 52.994, 1.0, 1000.0)
  const JUST_TRADED := Ledger([HELD], 447.006, 500.0, 500.0, 1000.0, 1, 0, 0, None)
  const RISING := TokenView("ETH", 2000.0, Some(1.0), Some(1.0), Some(0.0))
  const FLAT := TokenView("WBNB", 1.0, None, None, None)
  const SECOND_LATER := Feed([FLAT, RISING], 1001.0, 1001.0, true, true)

  lemma WitnessPrices()
    ensures PriceMap(SECOND_LATER.views) == map["WBNB" := 1.0, "ETH" := 2000.0]
  {
    var vs := SECOND_LATER.views;
    assert vs[..1] == [FLAT] && vs[..1][..0] == [];
    assert PriceMap([FLAT]) == map["WBNB" := 1.0];
  }

  /** The strategy's view: just marked, no drawdown, room for 7.006 dollars. */
  lemma WitnessView()
    ensures var pf := BuildState(JUST_TRADED, PriceMap(SECOND_LATER.views), 1001.0);
            && MarkedNav(JUST_TRADED, PriceMap(SECOND_LATER.views)) == 500.0
            && pf.nav == 500.0 && pf.positions == [HELD] && pf.drawdownPct == 0.0 && pf.sinceLastTrade == 1.0
            && pf.exposure == 0.105988
  {
    WitnessPrices();
    var price := PriceMap(SECOND_LATER.views);
    assert [HELD][..0] == [];
    assert ViewValue([HELD], price) == 52.994;
    assert RiskyValue([HELD], price) == 52.994;
  }

  lemma WitnessRanking()
    ensures EntryViews(SECOND_LATER.views, LIVE) == [RISING]
    ensures Signals.RankEntries([RISING], LIVE.volEnterMax) == [RISING]
  {
    var vs := SECOND_LATER.views;
    assert vs[1..] == [RISING] && [RISING][1..] == [] && [RISING][..0] == [];
    assert LIVE.universe[2] == "ETH";
    assert EntryViews([RISING], LIVE) == [RISING];
    assert !Buyable("WBNB", LIVE);
    assert Signals.RankEntries([], LIVE.volEnterMax) == [];
  }

  lemma WitnessHasNothingDue()
    ensures FirstExit([HELD], PriceMap(SECOND_LATER.views), Full, LIVE, 1001.0) == 1
  {
    WitnessPrices();
    assert !MustExit(HELD, 1.0, Full, LIVE, 1001.0);
  }

  lemma WitnessEnters(pf: PortfolioState)
    requires pf.nav == 500.0 && pf.positions == [HELD] && pf.exposure == 0.105988
    ensures EnterOrNudge(SECOND_LATER.views, pf, LIVE, Full, "bsc")
            == Intent(Enter, "bsc", "USDT", "ETH", 7.01, Binding)
  {
    WitnessRanking();
    EntryIs(pf);
    assert LIVE.quotes[0] == "USDT";
  }

  lemma WitnessIntent(pf: PortfolioState)
    requires pf.nav == 500.0 && pf.positions == [HELD] && pf.drawdownPct == 0.0 && pf.exposure == 0.105988
    ensures Decide(SECOND_LATER.views, pf, LIVE, 1001.0, "bsc") == Intent(Enter, "bsc", "USDT", "ETH", 7.01, Binding)
  {
    Ladder.CommittedRungs(0.0);
    WitnessHasNothingDue();
    WitnessEnters(pf);
  }

  lemma EntryIs(pf: PortfolioState)
    requires pf.nav == 500.0 && pf.positions == [HELD] && pf.exposure == 0.105988
    ensures Cents(EntrySize(RISING, pf, LIVE, Full, 0.12 - 0.105988)) == 7.01
    ensures FirstEntry([RISING], pf, LIVE, Full, 0.12 - 0.105988) == 0
  {
    assert VolScaledSize(500.0, Some(0.0), LIVE, false) == 12.5;
    assert Usd(0.12 - 0.105988, 500.0) == 7.006;
    assert RoundHalfEven(700.6) == 701;
    assert !Holds([HELD], "ETH");
  }

  /**
   * One second after a trade the strategy orders again, under the committed policy: its entry of 7.006 dollars is
   * rounded up to 7.01, which is over the room, so it is clamped and never meets the interval.
   */
  lemma StrategyOutrunsTheInterval()
    ensures Orders(JUST_TRADED, SECOND_LATER, LIVE) && RoomClamped(JUST_TRADED, SECOND_LATER, LIVE)
    ensures SECOND_LATER.now - JUST_TRADED.lastTrade == 1.0 < LIVE.risk.minInterval
    ensures Marked(JUST_TRADED, PriceMap(SECOND_LATER.views)) == JUST_TRADED
  {
    WitnessView();
    var pf := BuildState(JUST_TRADED, PriceMap(SECOND_LATER.views), 1001.0);
    WitnessIntent(pf);
    var d, pv := Proposal(JUST_TRADED, SECOND_LATER, LIVE), EngineView(JUST_TRADED, SECOND_LATER);
    assert d == Decision(Buy, "bsc", "USDT", "ETH", 7.01);
    Ladder.CommittedRungs(0.0);
    assert Engine.Room(pv, LIVE) == 0.014012 && Engine.RoomUsd(pv, LIVE) == 7.006;
    Engine.LiveBuyPasses("ETH", pv, 7.01);
    Engine.RoomBindsInDollars(d, pv, LIVE);
    Engine.SpacingUnlessRoomClamped(d, pv, 0.0, LIVE, pv.tradesLastHour, pv.sinceLastTrade);
  }
}
