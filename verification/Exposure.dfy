// The exposure cap over all ledgers: which buys it binds, exactly, and that the strategy proposes no other.
module Exposure {
  import opened Types
  import opened Money
  import opened Survival
  import opened Core
  import opened Fills
  import opened Adherence
  import Engine
  import Ladder

  function Age(f: Feed): real { Max(0.0, f.now - f.dataTs) }

  predicate Allowed(l: Ledger, f: Feed, d: Decision, cfg: Config) {
    Engine.Check(d, EngineView(l, f), Age(f), cfg).Allowed()
  }

  /** The ledger after the allowed amount is booked at the marks. */
  function Booked(l: Ledger, f: Feed, d: Decision, cfg: Config): Ledger {
    Filled(l, d, Engine.Check(d, EngineView(l, f), Age(f), cfg).finalUsd, PriceMap(f.views), f.now)
  }

  /** Risky value is within the cap, to half a cent. */
  predicate Within(l: Ledger, f: Feed, d: Decision, cfg: Config) {
    RiskyValue(Booked(l, f, d, cfg).positions, PriceMap(f.views)) <= Usd(cfg.risk.maxRisky, l.nav) + 0.005
  }

  ghost predicate Marks(l: Ledger, f: Feed) { JustMarked(l, PriceMap(f.views)) && l.nav > 0.0 }

  /** Wherever the trade is allowed on a ledger just marked, it leaves the risky value within the cap. */
  ghost predicate AlwaysWithin(f: Feed, d: Decision, cfg: Config) {
    forall l :: Marks(l, f) && Allowed(l, f, d, cfg) ==> Within(l, f, d, cfg)
  }

  /** The engine looks at the exposure of risk-increasing trades only. */
  lemma ExposureIsIgnored(d: Decision, pv: Engine.PortfolioView, age: real, cfg: Config, exposure: real)
    requires !Engine.RiskIncreasing(d, cfg)
    ensures Engine.Check(d, pv.(exposure := exposure), age, cfg) == Engine.Check(d, pv, age, cfg)
  {
  }

  /** The same NAV, peak and trade record, with this much in cash and the rest in one token. */
  function Concentrated(l: Ledger, sym: Token, cash: real, px: real): Ledger
    requires px != 0.0
  {
    l.(positions := [Holding(sym, Units(l.nav - cash, px), px, 0.0)], stable := cash)
  }

  lemma ConcentratedMarks(l: Ledger, f: Feed, sym: Token, cash: real)
    requires Marks(l, f) && cash <= l.nav && PriceOrZero(PriceMap(f.views), sym) > 0.0
    ensures var px := PriceMap(f.views)[sym];
            var t := Concentrated(l, sym, cash, px);
            Marks(t, f) && RiskyValue(t.positions, PriceMap(f.views)) == l.nav - cash
  {
    var price := PriceMap(f.views);
    var t := Concentrated(l, sym, cash, price[sym]);
    var h := t.positions[0];
    QuotientNonNegative(l.nav - cash, price[sym]);
    UsdOfUnits(l.nav - cash, price[sym]);
    assert t.positions[..0] == [] && RiskyValue([], price) == 0.0;
    assert RiskyValue(t.positions, price) == Worth(h, price);
  }

  lemma SameVerdict(l: Ledger, t: Ledger, f: Feed, d: Decision, cfg: Config)
    requires t.nav == l.nav && t.hwm == l.hwm && t.lastTrade == l.lastTrade && t.tradesLastHour == l.tradesLastHour
    requires !Engine.RiskIncreasing(d, cfg)
    ensures Engine.Check(d, EngineView(t, f), Age(f), cfg) == Engine.Check(d, EngineView(l, f), Age(f), cfg)
  {
    ExposureIsIgnored(d, EngineView(l, f), Age(f), cfg, EngineView(t, f).exposure);
    assert EngineView(t, f) == EngineView(l, f).(exposure := EngineView(t, f).exposure);
  }

  /** A buy that is allowed anywhere without increasing risk is allowed on a ledger it takes over the cap. */
  lemma EscapesTheCap(l: Ledger, f: Feed, d: Decision, cfg: Config) returns (t: Ledger)
    requires d.IsTrade() && d.side == Buy && !Engine.RiskIncreasing(d, cfg)
    requires Marks(l, f) && Allowed(l, f, d, cfg)
    requires PriceOrZero(PriceMap(f.views), d.toToken) > 0.0 && Usd(cfg.risk.maxRisky, l.nav) + 0.005 < l.nav
    ensures Marks(t, f) && Allowed(t, f, d, cfg) && !Within(t, f, d, cfg)
  {
    var price := PriceMap(f.views);
    var amount := Engine.Check(d, EngineView(l, f), Age(f), cfg).finalUsd;
    var cash := if amount <= l.nav then amount else 0.0;
    ConcentratedMarks(l, f, d.toToken, cash);
    t := Concentrated(l, d.toToken, cash, price[d.toToken]);
    SameVerdict(l, t, f, d, cfg);
    BuyRisky(t, d, amount, price, f.now);
  }

  /**
   * Exactly which buys the cap binds: of the buys of a priced token that the engine allows on some ledger with more
   * than half a cent outside the cap, those that increase risk, and no other.
   */
  lemma CapBindsIffRiskIncreasing(l: Ledger, f: Feed, d: Decision, cfg: Config)
    requires d.IsTrade() && d.side == Buy && Marks(l, f) && Allowed(l, f, d, cfg)
    requires PriceOrZero(PriceMap(f.views), d.toToken) > 0.0 && Usd(cfg.risk.maxRisky, l.nav) + 0.005 < l.nav
    ensures AlwaysWithin(f, d, cfg) <==> Engine.RiskIncreasing(d, cfg)
  {
    if Engine.RiskIncreasing(d, cfg) {
      forall t | Marks(t, f) && Allowed(t, f, d, cfg) ensures Within(t, f, d, cfg) {
        AllowedBuyStaysWithinCaps(t, f, d, cfg);
      }
    } else {
      var t := EscapesTheCap(l, f, d, cfg);
    }
  }

  const DOLLAR_FEED := Feed([TokenView("USDT", 1.0, None, None, None)], 1000.0, 1000.0, true, true)
  const ALL_CASH := Ledger([], 500.0, 500.0, 500.0, 0.0, 0, 0, 0, None)

  lemma DollarFeedMarks()
    ensures PriceMap(DOLLAR_FEED.views) == map["USDT" := 1.0] && Marks(ALL_CASH, DOLLAR_FEED)
    ensures var pv := EngineView(ALL_CASH, DOLLAR_FEED);
            pv.drawdownPct == 0.0 && pv.tradesLastHour == 0 && pv.sinceLastTrade >= 900.0
    ensures Age(DOLLAR_FEED) == 0.0 && PriceOrZero(PriceMap(DOLLAR_FEED.views), "USDT") == 1.0
  {
    assert DOLLAR_FEED.views[..0] == [];
  }

  lemma DollarBuyIsAllowed(f: Feed, d: Decision, cfg: Config) returns (l: Ledger)
    requires f == DOLLAR_FEED && d == Decision(Buy, "bsc", "ETH", "USDT", 10.0) && cfg == LIVE
    ensures d.IsTrade() && d.side == Buy && Marks(l, f) && Allowed(l, f, d, cfg) && !Engine.RiskIncreasing(d, cfg)
    ensures PriceOrZero(PriceMap(f.views), d.toToken) > 0.0 && l.nav == 500.0
  {
    l := ALL_CASH;
    DollarFeedMarks();
    DollarBuyAllowed(d, EngineView(l, f));
    NotIncreasing(d);
  }

  lemma LiveCapIsLow(nav: real, cfg: Config)
    requires cfg == LIVE && nav == 500.0
    ensures Usd(cfg.risk.maxRisky, nav) + 0.005 < nav
  {
    assert cfg.risk.maxRisky == 0.12;
  }

  /** Under the committed policy such a buy exists: dollars bought with ETH, which the pair list admits. */
  lemma DollarBuyEscapesTheCap(f: Feed, d: Decision, cfg: Config)
    requires f == DOLLAR_FEED && d == Decision(Buy, "bsc", "ETH", "USDT", 10.0) && cfg == LIVE
    ensures !AlwaysWithin(f, d, cfg)
  {
    var l := DollarBuyIsAllowed(f, d, cfg);
    LiveCapIsLow(l.nav, cfg);
    CapBindsIffRiskIncreasing(l, f, d, cfg);
  }

  lemma NotIncreasing(d: Decision)
    requires d.fromToken == "ETH"
    ensures !Engine.RiskIncreasing(d, LIVE)
  {
    Engine.LiveQuotes("ETH");
  }

  lemma DollarBuyAllowed(d: Decision, pv: Engine.PortfolioView)
    requires d == Decision(Buy, "bsc", "ETH", "USDT", 10.0)
    requires pv.drawdownPct == 0.0 && pv.tradesLastHour == 0 && pv.sinceLastTrade >= 900.0
    ensures Engine.Check(d, pv, 0.0, LIVE).Allowed()
  {
    Ladder.CommittedRungs(0.0);
    NotIncreasing(d);
    Engine.LiveLists("ETH");
    LiveSale();
    Engine.SpacingUnlessRoomClamped(d, pv, 0.0, LIVE, pv.tradesLastHour, pv.sinceLastTrade);
  }

  lemma LiveSale()
    ensures ("bsc", "ETH", "USDT") in LIVE.allowedPairs
  {
  }

  /** Every buy the strategy proposes increases risk, so every buy it gets through stays within the cap. */
  lemma StrategyStaysWithin(l: Ledger, f: Feed, cfg: Config)
    requires PolicyClosed(cfg) && UniverseOnly(l.positions, cfg) && Marks(l, f)
    requires Orders(l, f, cfg) && Proposal(l, f, cfg).side == Buy
    ensures Engine.RiskIncreasing(Proposal(l, f, cfg), cfg) && Within(l, f, Proposal(l, f, cfg), cfg)
  {
    ProposalInPolicy(l, f, cfg);
    AllowedBuyStaysWithinCaps(l, f, Proposal(l, f, cfg), cfg);
  }
}
