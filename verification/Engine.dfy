// agent/policy/engine.py: the decision authority. It allows, clamps or rejects; it never enlarges.
module Engine {
  import opened Types
  import opened Money
  import Ladder

  datatype PortfolioView = PortfolioView(nav: real, drawdownPct: real, exposure: real,
                                         tradesLastHour: int, sinceLastTrade: real)

  datatype Ruling = Allow | Clamp | Reject

  /** Which numbered check spoke. */
  datatype Reason = HoldNoAction | StaleData | OffList | OffPair | StablecoinOnly | NoNewRiskRung
                  | ExposureAtCap | RateCount | RateInterval | RoomClamp | CapClamp | Within

  datatype Verdict = Verdict(ruling: Ruling, finalUsd: real, reason: Reason, rung: Rung) {
    predicate Allowed() { ruling != Reject }
  }

  predicate RiskIncreasing(d: Decision, cfg: Config) {
    d.side == Buy && d.fromToken in cfg.quotes && d.toToken !in cfg.quotes
  }

  predicate RiskReducing(d: Decision, cfg: Config) {
    d.side == Sell && d.fromToken !in cfg.quotes && d.toToken in cfg.quotes
  }

  /** Single-trade cap in dollars, halved on the first rung. */
  function TradeCap(nav: real, cfg: Config, rung: Rung): real {
    var base :=
      if nav > 0.0 then Min(cfg.risk.maxSingleUsd, Usd(nav, cfg.risk.maxSinglePct)) else cfg.risk.maxSingleUsd;
    if rung == HalveSize then base / 2.0 else base
  }

  function Finalise(pv: PortfolioView, cfg: Config, amount: real, rung: Rung, roomClamped: bool): (v: Verdict)
    ensures v.Allowed() && v.rung == rung && (v.reason == RoomClamp || v.reason == CapClamp || v.reason == Within)
  {
    var cap := TradeCap(pv.nav, cfg, rung);
    var final := if amount > cap then cap else amount;
    if roomClamped then Verdict(Clamp, Cents(final), RoomClamp, rung)
    else if amount > cap then Verdict(Clamp, Cents(final), CapClamp, rung)
    else Verdict(Allow, Cents(final), Within, rung)
  }

  function Room(pv: PortfolioView, cfg: Config): real { Max(0.0, cfg.risk.maxRisky - pv.exposure) }

  function RoomUsd(pv: PortfolioView, cfg: Config): real { Usd(Room(pv, cfg), pv.nav) }

  /** Checks 1 to 4: the reason a trade is refused outright, hardest first. */
  function Gate(d: Decision, pv: PortfolioView, dataAge: real, cfg: Config, rung: Rung): (r: Option<Reason>)
    ensures r == Some(StablecoinOnly) ==> rung == StablecoinMode && !RiskReducing(d, cfg)
  {
    if dataAge > cfg.maxDataAge then Some(StaleData)
    else if d.fromToken !in cfg.allowedTokens || d.toToken !in cfg.allowedTokens then Some(OffList)
    else if (d.chain, d.fromToken, d.toToken) !in cfg.allowedPairs then Some(OffPair)
    else if rung == StablecoinMode && !RiskReducing(d, cfg) then Some(StablecoinOnly)
    else if rung == NoNewRisk && RiskIncreasing(d, cfg) then Some(NoNewRiskRung)
    else if RiskIncreasing(d, cfg) && pv.nav > 0.0 && Room(pv, cfg) <= 0.0 then Some(ExposureAtCap)
    else None
  }

  predicate RoomBinds(d: Decision, pv: PortfolioView, cfg: Config) {
    RiskIncreasing(d, cfg) && pv.nav > 0.0 && Units(d.amountUsd, pv.nav) > Room(pv, cfg)
  }

  /** Check 5, which a buy clamped to its exposure room never reaches. */
  function RateLimit(pv: PortfolioView, cfg: Config): (r: Option<Reason>)
    ensures r.Some? ==> r.value == RateCount || r.value == RateInterval
  {
    if pv.tradesLastHour >= cfg.risk.maxTradesPerHour then Some(RateCount)
    else if pv.sinceLastTrade < cfg.risk.minInterval then Some(RateInterval)
    else None
  }

  function Check(d: Decision, pv: PortfolioView, dataAge: real, cfg: Config): Verdict {
    var rung := Ladder.RungAt(cfg.ladder, pv.drawdownPct);
    var refusal := Gate(d, pv, dataAge, cfg, rung);
    if !d.IsTrade() then Verdict(Allow, 0.0, HoldNoAction, Full)
    else if refusal.Some? then Verdict(Reject, 0.0, refusal.value, rung)
    else if RoomBinds(d, pv, cfg) then Finalise(pv, cfg, RoomUsd(pv, cfg), rung, true)
    else if RateLimit(pv, cfg).Some? then Verdict(Reject, 0.0, RateLimit(pv, cfg).value, rung)
    else Finalise(pv, cfg, d.amountUsd, rung, false)
  }

  lemma ShareOfNav(amount: real, nav: real, room: real)
    requires nav > 0.0
    ensures Units(amount, nav) > room <==> amount > Usd(room, nav)
  {
    var share := Units(amount, nav);
    UsdOfUnits(amount, nav);
    if share > room {
      assert (share - room) * nav > 0.0;
    } else {
      UsdOrdered(share, room, nav);
    }
  }

  lemma RoomBindsInDollars(d: Decision, pv: PortfolioView, cfg: Config)
    requires RiskIncreasing(d, cfg) && pv.nav > 0.0
    ensures RoomBinds(d, pv, cfg) <==> d.amountUsd > RoomUsd(pv, cfg)
  {
    ShareOfNav(d.amountUsd, pv.nav, Room(pv, cfg));
  }

  /** An allowed trade is no larger than its cap, the proposal, and for a buy the exposure room, each to half a cent. */
  lemma AllowedAmountIsCapped(d: Decision, pv: PortfolioView, dataAge: real, cfg: Config)
    requires d.IsTrade() && Check(d, pv, dataAge, cfg).Allowed()
    ensures var v := Check(d, pv, dataAge, cfg);
            v.finalUsd <= TradeCap(pv.nav, cfg, v.rung) + 0.005 && v.finalUsd <= d.amountUsd + 0.005
    ensures RiskIncreasing(d, cfg) && pv.nav > 0.0 ==>
              Room(pv, cfg) > 0.0 && Check(d, pv, dataAge, cfg).finalUsd <= RoomUsd(pv, cfg) + 0.005
  {
    var rung := Ladder.RungAt(cfg.ladder, pv.drawdownPct);
    if RiskIncreasing(d, cfg) && pv.nav > 0.0 {
      RoomBindsInDollars(d, pv, cfg);
    }
    if RoomBinds(d, pv, cfg) {
    } else {
    }
  }

  /** A refusal for stablecoin mode comes from the gate alone. */
  lemma OnlyGateSpeaks(d: Decision, pv: PortfolioView, dataAge: real, cfg: Config)
    ensures Check(d, pv, dataAge, cfg).reason == StablecoinOnly ==>
              Gate(d, pv, dataAge, cfg, Ladder.RungAt(cfg.ladder, pv.drawdownPct)) == Some(StablecoinOnly)
  {
  }

  /** Neither rate limit bites. */
  predicate Spaced(tradesLastHour: int, sinceLastTrade: real, cfg: Config) {
    tradesLastHour < cfg.risk.maxTradesPerHour && sinceLastTrade >= cfg.risk.minInterval
  }

  /**
   * Exactly when a trade is allowed, whatever the trade count n and the time since the last trade: checks 1 to 4 pass,
   * and it is spaced or clamped to its exposure room. Those checks and the clamp do not look at n and since.
   */
  lemma SpacingUnlessRoomClamped(d: Decision, pv: PortfolioView, dataAge: real, cfg: Config, n: int, since: real)
    requires d.IsTrade()
    ensures var timed := pv.(tradesLastHour := n, sinceLastTrade := since);
            var v := Check(d, timed, dataAge, cfg);
            && (v.Allowed() <==>
                  && Gate(d, pv, dataAge, cfg, Ladder.RungAt(cfg.ladder, pv.drawdownPct)).None?
                  && (RoomBinds(d, pv, cfg) || Spaced(n, since, cfg)))
            && (v.Allowed() ==> (v.reason == RoomClamp <==> RoomBinds(d, pv, cfg)))
  {
    GuardsIgnoreTime(d, pv, dataAge, cfg, Ladder.RungAt(cfg.ladder, pv.drawdownPct), n, since);
  }

  lemma GuardsIgnoreTime(d: Decision, pv: PortfolioView, dataAge: real, cfg: Config, rung: Rung, n: int, since: real)
    ensures var timed := pv.(tradesLastHour := n, sinceLastTrade := since);
            && Gate(d, timed, dataAge, cfg, rung) == Gate(d, pv, dataAge, cfg, rung)
            && (RoomBinds(d, timed, cfg) <==> RoomBinds(d, pv, cfg))
  {
  }

  lemma LiveLists(token: Token)
    requires token == "ETH" || token == "CAKE"
    ensures "USDT" in LIVE.allowedTokens && token in LIVE.allowedTokens && ("bsc", "USDT", token) in LIVE.allowedPairs
  {
  }

  lemma LiveQuotes(token: Token)
    requires token == "ETH" || token == "CAKE"
    ensures "USDT" in LIVE.quotes && token !in LIVE.quotes
  {
    assert LIVE.quotes == ["USDT", "USDC"] && LIVE.quotes[0] == "USDT";
  }

  /** A buy of a counted token with dollars is taken on by the committed policy while there is room. */
  lemma LiveBuyPasses(token: Token, pv: PortfolioView, amount: real)
    requires token == "ETH" || token == "CAKE"
    requires Room(pv, LIVE) > 0.0 && Ladder.RungAt(LIVE.ladder, pv.drawdownPct) == Full
    ensures var d := Decision(Buy, "bsc", "USDT", token, amount);
            RiskIncreasing(d, LIVE) && Gate(d, pv, 0.0, LIVE, Full).None?
  {
    LiveLists(token);
    LiveQuotes(token);
  }

  /** Such a buy: ten dollars with five dollars of room, one second after the last of a hundred trades this hour. */
  lemma RoomClampEscapesSpacing()
    ensures var d := Decision(Buy, "bsc", "USDT", "ETH", 10.0);
            var pv := PortfolioView(500.0, 0.0, 0.11, 100, 1.0);
            && !Spaced(pv.tradesLastHour, pv.sinceLastTrade, LIVE)
            && Check(d, pv, 0.0, LIVE) == Verdict(Clamp, 5.0, RoomClamp, Full)
  {
    var d := Decision(Buy, "bsc", "USDT", "ETH", 10.0);
    var pv := PortfolioView(500.0, 0.0, 0.11, 100, 1.0);
    Ladder.CommittedRungs(0.0);
    assert Room(pv, LIVE) == 0.01 && RoomUsd(pv, LIVE) == 5.0;
    LiveBuyPasses("ETH", pv, 10.0);
    RoomBindsInDollars(d, pv, LIVE);
    assert TradeCap(pv.nav, LIVE, Full) == 12.5;
    CentsOfWhole(500);
  }

  lemma CentsOfWhole(n: int)
    ensures Cents(n as real / 100.0) == n as real / 100.0
  {
    assert n as real / 100.0 * 100.0 == n as real;
    assert (n as real).Floor == n;
  }
}
