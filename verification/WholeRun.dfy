// Whole runs under the committed policy: the drawdown never reaches the 6% elimination gate.
module WholeRun {
  import opened Types
  import opened Money
  import opened Survival
  import opened Core
  import opened Fills
  import opened Adherence
  import opened DrawdownBound
  import Engine
  import Runs
  import Ladder

  // ------------------------------------------------------------ one de-risking tick, any closed policy

  predicate DeRisking(l: Ledger, cfg: Config) {
    var rung := Ladder.RungAt(cfg.ladder, Drawdown(l));
    rung == NoNewRisk || rung == StablecoinMode
  }

  /** On the two lower rungs a tick buys nothing: the order, if any, is a sale. */
  lemma DeRiskingOrdersSell(l: Ledger, f: Feed, cfg: Config)
    requires PolicyClosed(cfg) && UniverseOnly(l.positions, cfg) && DeRisking(l, cfg)
    ensures Orders(l, f, cfg) ==> Proposal(l, f, cfg).side == Sell
  {
    if Ladder.RungAt(cfg.ladder, Drawdown(l)) == NoNewRisk {
      NoBuyUnderNoNewRisk(l, f, cfg);
    } else {
      StablecoinModeNeverBuys(l, f, cfg);
    }
  }

  /** No quantity rises, cash does not fall, and what is given up is paid for at the floor price or better. */
  lemma DeRiskingTickSheds(base: Ledger, l: Ledger, f: Feed, cfg: Config, floor: Token -> real)
    requires PolicyClosed(cfg) && CapsNonNegative(cfg) && UniverseOnly(l.positions, cfg) && DeRisking(l, cfg)
    requires OnlyShed(base, l, floor)
    requires forall h :: h in l.positions ==> PriceOrZero(PriceMap(f.views), h.sym) >= floor(h.sym) >= 0.0
    ensures OnlyShed(base, Ticked(l, f, cfg), floor)
    ensures Ticked(l, f, cfg).stable >= l.stable
    ensures forall t :: Qty(Ticked(l, f, cfg).positions, t) <= Qty(l.positions, t)
  {
    if Orders(l, f, cfg) && f.fills {
      var d, amount := Proposal(l, f, cfg), Ruled(l, f, cfg).finalUsd;
      DeRiskingOrdersSell(l, f, cfg);
      AllowedAmountNonNegative(d, EngineView(l, f), Max(0.0, f.now - f.dataTs), cfg);
      HoldsIsSymbol(l.positions, d.fromToken);
      SaleSheds(base, Cleared(l, f.live), d, amount, PriceMap(f.views), f.now, floor);
    }
  }

  // ------------------------------------------------------------ the floor in terms of the base

  /** A share k of each base price. */
  function ShareOf(k: real, p0: Prices): Token -> real { t => Usd(k, PriceOrZero(p0, t)) }

  /** Value at the base prices of EPS units of every base token. */
  function BaseDust(base: seq<Holding>, p0: Prices): real {
    Sum(Symbols(base), t => DustOf(p0, t))
  }

  ghost predicate Quoted(ps: seq<Holding>, price: Prices) {
    forall h :: h in ps ==> PriceOrZero(price, h.sym) > 0.0
  }

  function DustOf(p0: Prices, t: Token): real { Usd(EPS, PriceOrZero(p0, t)) }

  function NetOf(base: seq<Holding>, p0: Prices, t: Token): real { Usd(Qty(base, t) - EPS, PriceOrZero(p0, t)) }

  lemma FloorIsShare(base: seq<Holding>, p0: Prices, k: real)
    requires DistinctSymbols(base) && Quoted(base, p0)
    ensures FloorValue(base, ShareOf(k, p0)) == Usd(k, RiskyValue(base, p0) - BaseDust(base, p0))
  {
    var net, floor := (t: Token) => NetOf(base, p0, t), (t: Token) => FloorOf(base, ShareOf(k, p0), t);
    NetIsRisky(base, p0);
    forall t ensures FloorOf(base, ShareOf(k, p0), t) == Usd(k, NetOf(base, p0, t)) {
      FloorIsShareOf(base, p0, k, t);
    }
    SumScale(Symbols(base), net, floor, k);
  }

  lemma FloorIsShareOf(base: seq<Holding>, p0: Prices, k: real, t: Token)
    ensures FloorOf(base, ShareOf(k, p0), t) == Usd(k, NetOf(base, p0, t))
  {
    ShareOfProduct(k, Qty(base, t) - EPS, PriceOrZero(p0, t));
  }

  lemma NetIsRisky(base: seq<Holding>, p0: Prices)
    requires DistinctSymbols(base) && Quoted(base, p0)
    ensures Sum(Symbols(base), t => NetOf(base, p0, t)) == RiskyValue(base, p0) - BaseDust(base, p0)
  {
    var m := (t: Token) => PriceOrZero(p0, t);
    forall h | h in base ensures h.sym in Symbols(base) && MarkPrice(h, p0) == m(h.sym) {
      HoldsIsSymbol(base, h.sym);
    }
    RiskyIsSum(base, p0, Symbols(base), m);
    var held := (t: Token) => HeldOf(base, m, t);
    var dust := (t: Token) => DustOf(p0, t);
    var net := (t: Token) => NetOf(base, p0, t);
    forall t ensures held(t) == net(t) + dust(t) {
      UsdSplit(Qty(base, t), EPS, PriceOrZero(p0, t));
    }
    SumPlus(Symbols(base), net, dust, held);
  }

  lemma ShareOfProduct(k: real, qty: real, px: real)
    ensures Usd(qty, Usd(k, px)) == Usd(k, Usd(qty, px))
  {
  }

  /**
   * While a book only sheds and no held price is under k times its base price,
   * NAV >= stable0 + k * (risky0 - dust), the dust being EPS units of each base token.
   */
  lemma NavKeepsShare(base: Ledger, p0: Prices, l: Ledger, price: Prices, k: real)
    requires OnlyShed(base, l, ShareOf(k, p0)) && Quoted(base.positions, p0) && k >= 0.0
    requires forall t :: PriceOrZero(p0, t) >= 0.0
    requires Quoted(l.positions, price)
    requires forall h :: h in l.positions ==> PriceOrZero(price, h.sym) >= ShareOf(k, p0)(h.sym)
    ensures MarkedNav(l, price) >= base.stable + Usd(k, RiskyValue(base.positions, p0) - BaseDust(base.positions, p0))
  {
    forall t ensures ShareOf(k, p0)(t) >= 0.0 {
      UsdNonNegative(k, PriceOrZero(p0, t));
    }
    NavFloor(base, l, price, ShareOf(k, p0));
    FloorIsShare(base.positions, p0, k);
  }

  // ------------------------------------------------------------ episodes

  /** The ledger of a run, with the ledger and prices after the last tick that decided under 2% drawdown. */
  datatype Episode = Episode(ledger: Ledger, base: Ledger, basePrice: Prices)

  const NO_RISK_PCT := 2.0
  const GATE_PCT := 6.0
  const MAX_PRICE := 1000000.0
  const KEPT_SHARE := 0.66
  const START_NAV := 500.0

  function Next(e: Episode, f: Feed): Episode {
    var price := PriceMap(f.views);
    var after := Round(e.ledger, f, LIVE);
    if Drawdown(Marked(e.ledger, price)) < NO_RISK_PCT then Episode(after, after, price)
    else Episode(after, e.base, e.basePrice)
  }

  function Play(e: Episode, feeds: seq<Feed>): Episode { Runs.Fold(Next, e, feeds) }

  /** Every universe token has a positive price of at most a million dollars, and no price is negative. */
  ghost predicate SanePrices(price: Prices) {
    && (forall t :: t in LIVE.universe ==> t in price && price[t] > 0.0)
    && (forall t :: t in price ==> 0.0 <= price[t] <= MAX_PRICE)
  }

  /**
   * What the market must grant at each tick: sane prices; under 2% drawdown, exposure that has not drifted over the
   * 12% cap; from 2% on, no held price more than 34% below its mark at the last tick under 2%.
   */
  ghost predicate Orderly(e: Episode, f: Feed) {
    var price := PriceMap(f.views);
    var m := Marked(e.ledger, price);
    && SanePrices(price)
    && if Drawdown(m) < NO_RISK_PCT then RiskyValue(m.positions, price) <= 0.12 * m.nav
       else forall h :: h in e.ledger.positions ==>
              PriceOrZero(price, h.sym) >= KEPT_SHARE * PriceOrZero(e.basePrice, h.sym)
  }

  /** NAV within a hair of 2% under the peak, exposure within a cent of 12%. */
  ghost predicate SolidBase(base: Ledger, p0: Prices) {
    && MarkedNav(base, p0) >= 0.98 * base.hwm - 0.001
    && RiskyValue(base.positions, p0) <= 0.12 * MarkedNav(base, p0) + 0.0052
  }

  ghost predicate Steady(e: Episode) {
    && UniverseOnly(e.ledger.positions, LIVE) && UniverseOnly(e.base.positions, LIVE)
    && OnlyShed(e.base, e.ledger, ShareOf(KEPT_SHARE, e.basePrice))
    && Quoted(e.base.positions, e.basePrice)
    && (forall t :: 0.0 <= PriceOrZero(e.basePrice, t) <= MAX_PRICE)
    && e.ledger.hwm == e.base.hwm >= START_NAV
    && SolidBase(e.base, e.basePrice)
  }

  // ------------------------------------------------------------ dust of at most four tokens

  lemma {:induction false} SumAtMost<K>(keys: seq<K>, f: K -> real, most: real)
    requires forall k :: k in keys ==> f(k) <= most
    ensures Sum(keys, f) <= Usd(|keys| as real, most)
  {
    if keys != [] {
      SumAtMost(keys[1..], f, most);
      UsdSplit((|keys| - 1) as real, 1.0, most);
    }
  }

  lemma DistinctWithin(tokens: seq<Token>, all: seq<Token>)
    requires Distinct(tokens) && forall t :: t in tokens ==> t in all
    ensures |tokens| <= |all|
  {
    var small := set t | t in tokens;
    var big := set t | t in all;
    SetOfSize(tokens);
    SetAtMost(all);
    SubsetSize(small, big);
  }

  lemma SubsetSize(a: set<Token>, b: set<Token>)
    requires a <= b
    ensures |a| <= |b|
  {
    assert b == a + (b - a);
  }

  lemma {:induction false} SetOfSize(tokens: seq<Token>)
    requires Distinct(tokens)
    ensures |set t | t in tokens| == |tokens|
  {
    if tokens != [] {
      SetOfSize(tokens[1..]);
      assert (set t | t in tokens) == {tokens[0]} + (set t | t in tokens[1..]);
      assert tokens[0] !in tokens[1..];
    }
  }

  lemma {:induction false} SetAtMost(tokens: seq<Token>)
    ensures |set t | t in tokens| <= |tokens|
  {
    if tokens != [] {
      SetAtMost(tokens[1..]);
      assert (set t | t in tokens) == {tokens[0]} + (set t | t in tokens[1..]);
    }
  }

  /** Four universe tokens under a million dollars each: the dust is under half a cent. */
  lemma BaseDustSmall(base: seq<Holding>, p0: Prices)
    requires DistinctSymbols(base) && UniverseOnly(base, LIVE)
    requires forall t :: 0.0 <= PriceOrZero(p0, t) <= MAX_PRICE
    ensures BaseDust(base, p0) <= 0.004
  {
    var tokens := Symbols(base);
    DistinctWithin(tokens, LIVE.universe);
    var f := (t: Token) => DustOf(p0, t);
    forall t ensures f(t) <= 0.001 {
      assert DustOf(p0, t) == EPS * PriceOrZero(p0, t);
    }
    SumAtMost(tokens, f, 0.001);
    assert Usd(|tokens| as real, 0.001) == (|tokens| as real) * 0.001;
  }

  // ------------------------------------------------------------ drawdown against NAV

  lemma DrawdownAgainstNav(l: Ledger, pct: real)
    requires l.hwm > 0.0 && pct > 0.0
    ensures Drawdown(l) < pct <==> l.hwm - l.nav < pct / 100.0 * l.hwm
  {
    var share := (l.hwm - l.nav) / l.hwm;
    DivideBack(l.hwm - l.nav, l.hwm);
    assert share * l.hwm == l.hwm - l.nav;
    if share < pct / 100.0 {
      assert (pct / 100.0 - share) * l.hwm > 0.0;
    } else {
      ProductOrdered(pct / 100.0, share, l.hwm);
    }
  }

  /** The survival arithmetic: 2% down, 12% exposed, 34% off the risky part, and less than a cent of dust. */
  lemma SurvivalArithmetic(nav: real, stable0: real, risky0: real, dust: real, hwm: real)
    requires nav >= stable0 + Usd(KEPT_SHARE, risky0 - dust)
    requires stable0 + risky0 >= 0.98 * hwm - 0.001 && risky0 <= 0.12 * (stable0 + risky0) + 0.0052
    requires dust <= 0.004 && hwm >= START_NAV
    ensures hwm - nav < GATE_PCT / 100.0 * hwm
  {
    assert Usd(KEPT_SHARE, risky0 - dust) == 0.66 * (risky0 - dust);
  }

  // ------------------------------------------------------------ what one tick does to NAV

  lemma LiveCapsNonNegative()
    ensures CapsNonNegative(LIVE) && LIVE.risk.maxRisky == 0.12 && LIVE.ladder == LADDER
  {
  }

  lemma HeldIsQuoted(l: Ledger, price: Prices)
    requires UniverseOnly(l.positions, LIVE) && SanePrices(price)
    ensures Quoted(l.positions, price)
    ensures forall i :: 0 <= i < |l.positions| ==> l.positions[i].sym in price && price[l.positions[i].sym] > 0.0
  {
  }

  lemma FillNav(l: Ledger, d: Decision, amount: real, price: Prices, now: real)
    requires SanePrices(price)
    ensures var after := Filled(l, d, amount, price, now);
            MarkedNav(l, price) - 0.001 <= MarkedNav(after, price) <= MarkedNav(l, price)
  {
    FillConserves(l, d, amount, price, now);
    FillDustSmall(l, d, amount, price);
    assert Usd(EPS, TradedPrice(d, price)) == EPS * TradedPrice(d, price);
  }

  /** A booked tick costs NAV at most a tenth of a cent, and leaves exposure within the cap if it was within it. */
  lemma TickNav(m: Ledger, f: Feed)
    requires JustMarked(m, PriceMap(f.views)) && UniverseOnly(m.positions, LIVE) && SanePrices(PriceMap(f.views))
    ensures var price := PriceMap(f.views);
            var t := Ticked(m, f, LIVE);
            && m.nav - 0.001 <= MarkedNav(t, price) <= m.nav
            && (m.nav > 0.0 && RiskyValue(m.positions, price) <= 0.12 * m.nav ==>
                  RiskyValue(t.positions, price) <= 0.12 * m.nav + 0.005)
  {
    if Orders(m, f, LIVE) && f.fills {
      var d, amount := Proposal(m, f, LIVE), Ruled(m, f, LIVE).finalUsd;
      CommittedPolicyClosed();
      LiveCapsNonNegative();
      ProposalInPolicy(m, f, LIVE);
      AllowedAmountNonNegative(d, EngineView(m, f), Max(0.0, f.now - f.dataTs), LIVE);
      FillNav(Cleared(m, f.live), d, amount, PriceMap(f.views), f.now);
      if d.side == Buy && m.nav > 0.0 {
        LiveBuyWithinCaps(m, f, d);
      } else if d.side == Sell {
        FillKeepsSound(Cleared(m, f.live), d, amount, PriceMap(f.views), f.now);
      }
    }
  }

  lemma LiveBuyWithinCaps(m: Ledger, f: Feed, d: Decision)
    requires JustMarked(m, PriceMap(f.views)) && m.nav > 0.0
    requires d.IsTrade() && d.side == Buy && d.fromToken == LIVE.quotes[0] && Buyable(d.toToken, LIVE)
    requires Engine.Check(d, EngineView(m, f), Max(0.0, f.now - f.dataTs), LIVE).Allowed()
    ensures var amount := Engine.Check(d, EngineView(m, f), Max(0.0, f.now - f.dataTs), LIVE).finalUsd;
            RiskyValue(Filled(Cleared(m, f.live), d, amount, PriceMap(f.views), f.now).positions, PriceMap(f.views))
            <= 0.12 * m.nav + 0.005
  {
    CommittedPolicyClosed();
    LiveCapsNonNegative();
    AllowedBuyStaysWithinCaps(m, f, d, LIVE);
    var amount := Engine.Check(d, EngineView(m, f), Max(0.0, f.now - f.dataTs), LIVE).finalUsd;
    assert Filled(Cleared(m, f.live), d, amount, PriceMap(f.views), f.now).positions
        == Filled(m, d, amount, PriceMap(f.views), f.now).positions;
    assert Usd(LIVE.risk.maxRisky, m.nav) == 0.12 * m.nav;
  }

  // ------------------------------------------------------------ one step of an episode

  /** Facts of one round that do not depend on the episode. */
  lemma RoundFacts(l: Ledger, f: Feed)
    requires Sound(l.positions) && UniverseOnly(l.positions, LIVE) && SanePrices(PriceMap(f.views))
    ensures var price := PriceMap(f.views);
            var m, after := Marked(l, price), Round(l, f, LIVE);
            && after.positions == Ticked(m, f, LIVE).positions && after.stable == Ticked(m, f, LIVE).stable
            && Sound(after.positions) && UniverseOnly(after.positions, LIVE) && Quoted(after.positions, price)
            && after.nav == MarkedNav(after, price) && after.hwm == m.hwm
            && m.nav - 0.001 <= after.nav <= m.nav
            && (m.nav > 0.0 && RiskyValue(m.positions, price) <= 0.12 * m.nav ==>
                  RiskyValue(after.positions, price) <= 0.12 * m.nav + 0.005)
  {
    var price := PriceMap(f.views);
    var m := Marked(l, price);
    TickNav(m, f);
    TickShape(m, f);
  }

  lemma TickShape(m: Ledger, f: Feed)
    requires Sound(m.positions) && UniverseOnly(m.positions, LIVE)
    ensures var t := Ticked(m, f, LIVE);
            Sound(t.positions) && UniverseOnly(t.positions, LIVE) && t.hwm == m.hwm
  {
    CommittedPolicyClosed();
    TickKeepsUniverse(m, f, LIVE);
    TickKeepsSound(m, f);
  }

  /** A ledger freshly marked is its own base. */
  lemma FreshBase(after: Ledger, price: Prices)
    requires Sound(after.positions) && UniverseOnly(after.positions, LIVE) && Quoted(after.positions, price)
    requires forall t :: t in price ==> 0.0 <= price[t] <= MAX_PRICE
    requires after.hwm >= START_NAV && SolidBase(after, price)
    ensures Steady(Episode(after, after, price))
  {
    ShedNothing(after, ShareOf(KEPT_SHARE, price));
  }

  lemma RebaseIsSolid(m: Ledger, after: Ledger, price: Prices)
    requires Drawdown(m) < NO_RISK_PCT && m.hwm >= START_NAV && after.hwm == m.hwm
    requires after.nav == MarkedNav(after, price) && m.nav - 0.001 <= after.nav <= m.nav
    requires m.nav > 0.0 ==> RiskyValue(after.positions, price) <= 0.12 * m.nav + 0.005
    ensures SolidBase(after, price) && Drawdown(after) < GATE_PCT
  {
    DrawdownAgainstNav(m, NO_RISK_PCT);
    assert m.nav > 0.98 * m.hwm;
    GateHolds(after);
  }

  /** Under 2%: the tick starts a new base. */
  lemma StepRebases(e: Episode, f: Feed)
    requires Steady(e) && Orderly(e, f)
    requires Drawdown(Marked(e.ledger, PriceMap(f.views))) < NO_RISK_PCT
    ensures Steady(Next(e, f)) && Drawdown(Next(e, f).ledger) < GATE_PCT
  {
    var price := PriceMap(f.views);
    var m, after := Marked(e.ledger, price), Round(e.ledger, f, LIVE);
    RoundFacts(e.ledger, f);
    RebaseIsSolid(m, after, price);
    FreshBase(after, price);
  }

  lemma TickKeepsSound(l: Ledger, f: Feed)
    requires Sound(l.positions)
    ensures Sound(Ticked(l, f, LIVE).positions) && Ticked(l, f, LIVE).hwm == l.hwm
  {
    if Orders(l, f, LIVE) && f.fills {
      var d := Proposal(l, f, LIVE);
      LiveCapsNonNegative();
      AllowedAmountNonNegative(d, EngineView(l, f), Max(0.0, f.now - f.dataTs), LIVE);
      FillKeepsSound(Cleared(l, f.live), d, Ruled(l, f, LIVE).finalUsd, PriceMap(f.views), f.now);
    }
  }

  /** NAV of a ledger that only sheds from a solid base, at prices still above the floor, is over 94% of the peak. */
  lemma PricesKeepShare(ps: seq<Holding>, p0: Prices, price: Prices)
    requires forall h :: h in ps ==> PriceOrZero(price, h.sym) >= KEPT_SHARE * PriceOrZero(p0, h.sym)
    ensures forall h :: h in ps ==> PriceOrZero(price, h.sym) >= ShareOf(KEPT_SHARE, p0)(h.sym)
  {
    forall h | h in ps ensures PriceOrZero(price, h.sym) >= ShareOf(KEPT_SHARE, p0)(h.sym) {
      assert Usd(KEPT_SHARE, PriceOrZero(p0, h.sym)) == KEPT_SHARE * PriceOrZero(p0, h.sym);
    }
  }

  lemma FloorHolds(e: Episode, l: Ledger, price: Prices)
    requires Steady(e) && OnlyShed(e.base, l, ShareOf(KEPT_SHARE, e.basePrice))
    requires Quoted(l.positions, price)
    requires forall h :: h in l.positions ==> PriceOrZero(price, h.sym) >= KEPT_SHARE * PriceOrZero(e.basePrice, h.sym)
    ensures e.base.hwm - MarkedNav(l, price) < GATE_PCT / 100.0 * e.base.hwm
  {
    PricesKeepShare(l.positions, e.basePrice, price);
    NavKeepsShare(e.base, e.basePrice, l, price, KEPT_SHARE);
    BaseDustSmall(e.base.positions, e.basePrice);
    SurvivalArithmetic(MarkedNav(l, price), e.base.stable, RiskyValue(e.base.positions, e.basePrice),
                       BaseDust(e.base.positions, e.basePrice), e.base.hwm);
  }

  /** From 2% down the peak stands still. */
  lemma PeakStands(l: Ledger, price: Prices)
    requires l.hwm >= START_NAV && Drawdown(Marked(l, price)) >= NO_RISK_PCT
    ensures Marked(l, price).hwm == l.hwm
  {
    DrawdownAgainstNav(Marked(l, price), NO_RISK_PCT);
  }

  lemma GateHolds(l: Ledger)
    requires l.hwm >= START_NAV && l.hwm - l.nav < GATE_PCT / 100.0 * l.hwm
    ensures Drawdown(l) < GATE_PCT
  {
    DrawdownAgainstNav(l, GATE_PCT);
  }

  /** From 2% down: the tick only sheds, and NAV stays over the floor. */
  lemma StepSheds(e: Episode, f: Feed)
    requires Steady(e) && Orderly(e, f)
    requires Drawdown(Marked(e.ledger, PriceMap(f.views))) >= NO_RISK_PCT
    ensures Steady(Next(e, f)) && Drawdown(Next(e, f).ledger) < GATE_PCT
    ensures Drawdown(Marked(e.ledger, PriceMap(f.views))) < GATE_PCT
  {
    var price := PriceMap(f.views);
    var m, after := Marked(e.ledger, price), Round(e.ledger, f, LIVE);
    RoundFacts(e.ledger, f);
    PeakStands(e.ledger, price);
    HeldIsQuoted(m, price);
    assert Drawdown(m) < GATE_PCT by {
      FloorHolds(e, e.ledger, price);
      GateHolds(m);
    }
    DeRiskingLive(e, m, f);
    assert OnlyShed(e.base, after, ShareOf(KEPT_SHARE, e.basePrice));
    assert Drawdown(after) < GATE_PCT by {
      StillHeld(m.positions, after.positions);
      FloorHolds(e, after, price);
      GateHolds(after);
    }
  }

  lemma DeRiskingLive(e: Episode, m: Ledger, f: Feed)
    requires Steady(e) && m.positions == e.ledger.positions && m.stable == e.ledger.stable
    requires Drawdown(m) >= NO_RISK_PCT && UniverseOnly(m.positions, LIVE) && SanePrices(PriceMap(f.views))
    requires forall h :: h in m.positions ==>
               PriceOrZero(PriceMap(f.views), h.sym) >= KEPT_SHARE * PriceOrZero(e.basePrice, h.sym)
    ensures OnlyShed(e.base, Ticked(m, f, LIVE), ShareOf(KEPT_SHARE, e.basePrice))
    ensures forall t :: Holds(Ticked(m, f, LIVE).positions, t) ==> Holds(m.positions, t)
  {
    var floor := ShareOf(KEPT_SHARE, e.basePrice);
    CommittedPolicyClosed();
    LiveCapsNonNegative();
    Ladder.CommittedRungs(Drawdown(m));
    forall h | h in m.positions ensures PriceOrZero(PriceMap(f.views), h.sym) >= floor(h.sym) >= 0.0 {
      assert floor(h.sym) == KEPT_SHARE * PriceOrZero(e.basePrice, h.sym);
    }
    DeRiskingTickSheds(e.base, m, f, LIVE, floor);
    ShedNothing(m, floor);
    DeRiskingTickSheds(m, m, f, LIVE, floor);
  }

  /** What a tick that only sheds still holds, it held before. */
  lemma StillHeld(ps: seq<Holding>, qs: seq<Holding>)
    requires forall t :: Holds(qs, t) ==> Holds(ps, t)
    ensures forall h :: h in qs ==> exists g :: g in ps && g.sym == h.sym
  {
    forall h | h in qs ensures exists g :: g in ps && g.sym == h.sym {
      HoldsIsSymbol(qs, h.sym);
      HoldsIsSymbol(ps, h.sym);
    }
  }

  // ------------------------------------------------------------ the whole run

  lemma StepStaysUnderGate(e: Episode, f: Feed)
    requires Steady(e) && Orderly(e, f)
    ensures Steady(Next(e, f)) && Drawdown(Next(e, f).ledger) < GATE_PCT
    ensures Drawdown(Marked(e.ledger, PriceMap(f.views))) < GATE_PCT
  {
    if Drawdown(Marked(e.ledger, PriceMap(f.views))) < NO_RISK_PCT {
      StepRebases(e, f);
    } else {
      StepSheds(e, f);
    }
  }

  /** Every tick of the run is orderly with respect to the episode it starts from. */
  ghost predicate OrderlyRun(e: Episode, feeds: seq<Feed>) { Runs.Along(Next, Orderly, e, feeds) }

  /** Along an orderly run every episode stays steady and under the gate. */
  lemma RunIsSteady(e: Episode, feeds: seq<Feed>)
    requires Steady(e) && OrderlyRun(e, feeds)
    ensures Steady(Play(e, feeds))
  {
    forall e': Episode, f: Feed | Steady(e') && Orderly(e', f) ensures Steady(Next(e', f)) {
      StepStaysUnderGate(e', f);
    }
    Runs.Invariant(Next, Orderly, Steady, e, feeds);
  }

  function AllCash(cash: real): Episode {
    var l := Ledger([], cash, cash, cash, 0.0, 0, 0, 0, None);
    Episode(l, l, map[])
  }

  lemma CashIsSteady(cash: real)
    requires cash >= START_NAV
    ensures Steady(AllCash(cash))
  {
    ShedNothing(AllCash(cash).base, ShareOf(KEPT_SHARE, map[]));
  }

  /**
   * The committed policy never reaches the 6% gate. From START_NAV or more in cash, over any orderly run of any length,
   * whatever the signals, the clock and the fills: the drawdown marked before and after every tick is under 6%.
   */
  lemma NeverReachesGate(cash: real, feeds: seq<Feed>, i: nat)
    requires cash >= START_NAV && i < |feeds|
    requires OrderlyRun(AllCash(cash), feeds)
    ensures Drawdown(Marked(Play(AllCash(cash), feeds[..i]).ledger, PriceMap(feeds[i].views))) < GATE_PCT
    ensures Drawdown(Play(AllCash(cash), feeds[..i + 1]).ledger) < GATE_PCT
  {
    var e := AllCash(cash);
    CashIsSteady(cash);
    Runs.FoldNext(Next, e, feeds, i);
    Runs.AlongPrefix(Next, Orderly, e, feeds, i);
    RunIsSteady(e, feeds[..i]);
    StepStaysUnderGate(Play(e, feeds[..i]), feeds[i]);
  }
}
