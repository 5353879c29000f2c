// What booking a fill keeps: NAV at the mark prices, cost basis, solvency, and the caps of the policy engine.
module Fills {
  import opened Types
  import opened Money
  import opened Survival
  import opened Core
  import Engine
  import Ladder

  // ------------------------------------------------------------ the risky sum under an edit

  lemma {:induction false} RiskyUpdate(ps: seq<Holding>, i: nat, h: Holding, price: Prices)
    requires i < |ps|
    ensures RiskyValue(ps[i := h], price)
            == RiskyValue(ps, price) - Worth(ps[i], price) + Worth(h, price)
  {
    var n := |ps| - 1;
    if i == n {
      assert ps[i := h][..n] == ps[..n];
    } else {
      assert ps[i := h][..n] == ps[..n][i := h];
      RiskyUpdate(ps[..n], i, h, price);
    }
  }

  lemma {:induction false} RiskyRemove(ps: seq<Holding>, i: nat, price: Prices)
    requires i < |ps|
    ensures RiskyValue(ps[..i] + ps[i + 1..], price) == RiskyValue(ps, price) - Worth(ps[i], price)
  {
    var n := |ps| - 1;
    if i == n {
      assert ps[..i] + ps[i + 1..] == ps[..n];
    } else {
      var rest := ps[..i] + ps[i + 1..];
      assert ps[..n][..i] == ps[..i] && ps[..n][i + 1..] == ps[i + 1..n];
      assert rest[..n - 1] == ps[..i] + ps[i + 1..n];
      assert rest[n - 1] == ps[n];
      RiskyRemove(ps[..n], i, price);
    }
  }

  lemma RiskyAppend(ps: seq<Holding>, h: Holding, price: Prices)
    ensures RiskyValue(ps + [h], price) == RiskyValue(ps, price) + Worth(h, price)
  {
    assert (ps + [h])[..|ps|] == ps;
  }

  lemma {:induction false} RiskyNonNegative(ps: seq<Holding>, price: Prices)
    requires forall i :: 0 <= i < |ps| ==> ps[i].qty >= 0.0 && MarkPrice(ps[i], price) >= 0.0
    ensures RiskyValue(ps, price) >= 0.0
  {
    if ps != [] {
      RiskyNonNegative(ps[..|ps| - 1], price);
    }
  }

  // ------------------------------------------------------------ conservation

  /** Dollars spent on the current position in a token. */
  function CostBasis(ps: seq<Holding>, sym: Token): real {
    var i := IndexOf(ps, sym);
    if i < |ps| then Usd(ps[i].entryPrice, ps[i].qty) else 0.0
  }

  lemma IndexOfUnchanged(ps: seq<Holding>, qs: seq<Holding>, sym: Token)
    requires |ps| == |qs| && forall i :: 0 <= i < |ps| ==> ps[i].sym == qs[i].sym
    ensures IndexOf(ps, sym) == IndexOf(qs, sym)
  {
  }

  lemma {:induction false} IndexOfAppend(ps: seq<Holding>, h: Holding, sym: Token)
    ensures IndexOf(ps + [h], sym) ==
              if IndexOf(ps, sym) < |ps| then IndexOf(ps, sym) else if h.sym == sym then |ps| else |ps| + 1
  {
    var i := IndexOf(ps, sym);
    var j := IndexOf(ps + [h], sym);
    if i < |ps| {
      assert (ps + [h])[i].sym == sym;
    } else {
      assert (ps + [h])[|ps|] == h;
    }
  }

  /** A buy moves the amount from cash into the position at cost: entry price times quantity grows by the amount. */
  lemma BuyAddsAmountAtCost(ps: seq<Holding>, sym: Token, amount: real, px: real, now: real)
    requires Sound(ps) && px > 0.0 && amount >= 0.0
    ensures CostBasis(Bought(ps, sym, Units(amount, px), px, now), sym) == CostBasis(ps, sym) + amount
    ensures forall t :: t != sym ==> CostBasis(Bought(ps, sym, Units(amount, px), px, now), t) == CostBasis(ps, t)
  {
    var i, qty := IndexOf(ps, sym), Units(amount, px);
    var after := Bought(ps, sym, qty, px, now);
    UsdOfUnits(amount, px);
    assert Usd(px, qty) == amount;
    QuotientNonNegative(amount, px);
    if i < |ps| {
      forall t ensures IndexOf(after, t) == IndexOf(ps, t) {
        IndexOfUnchanged(ps, after, t);
      }
    } else {
      forall t ensures IndexOf(after, t) == (if IndexOf(ps, t) < |ps| then IndexOf(ps, t)
                                             else if t == sym then |ps| else |ps| + 1) {
        IndexOfAppend(ps, Holding(sym, qty, px, now), t);
      }
    }
  }

  /** Price of the risky token a decision trades. */
  function TradedPrice(d: Decision, price: Prices): real {
    PriceOrZero(price, if d.side == Buy then d.toToken else d.fromToken)
  }

  lemma BuyConserves(l: Ledger, sym: Token, amount: real, price: Prices, now: real)
    requires PriceOrZero(price, sym) != 0.0
    ensures RiskyValue(Bought(l.positions, sym, Units(amount, price[sym]), price[sym], now), price)
            == RiskyValue(l.positions, price) + amount
  {
    var ps, px := l.positions, price[sym];
    var qty := Units(amount, px);
    UsdOfUnits(amount, px);
    var i := IndexOf(ps, sym);
    if i < |ps| {
      RiskyUpdate(ps, i, Merged(ps[i], qty, px), price);
      UsdSplit(ps[i].qty, qty, px);
    } else {
      RiskyAppend(ps, Holding(sym, qty, px, now), price);
    }
  }

  /** What stays of a holding after a sale. */
  function Rest(h: Holding, units: real): Holding { h.(qty := h.qty - units) }

  /** Dollars written off when a sale leaves no more than EPS units behind. */
  function PoppedUsd(h: Holding, units: real, price: Prices): real {
    if h.qty - units <= EPS then Worth(Rest(h, units), price) else 0.0
  }

  lemma SaleWorth(h: Holding, units: real, price: Prices)
    ensures Worth(h, price) == Usd(units, MarkPrice(h, price)) + Worth(Rest(h, units), price)
  {
    UsdSplit(h.qty, units, MarkPrice(h, price));
  }

  lemma SoldRisky(ps: seq<Holding>, i: nat, units: real, price: Prices)
    requires i < |ps|
    ensures RiskyValue(Sold(ps, i, units), price)
            == RiskyValue(ps, price) - Worth(ps[i], price)
               + Worth(Rest(ps[i], units), price) - PoppedUsd(ps[i], units, price)
  {
    if ps[i].qty - units <= EPS {
      assert Sold(ps, i, units) == ps[..i] + ps[i + 1..];
      RiskyRemove(ps, i, price);
    } else {
      assert Sold(ps, i, units) == ps[i := Rest(ps[i], units)];
      RiskyUpdate(ps, i, Rest(ps[i], units), price);
    }
  }

  /** A sale turns units into cash at the mark price; only a remainder of at most EPS units is written off. */
  lemma SaleConserves(ps: seq<Holding>, i: nat, units: real, price: Prices)
    requires i < |ps|
    ensures RiskyValue(Sold(ps, i, units), price) + Usd(units, MarkPrice(ps[i], price))
            == RiskyValue(ps, price) - PoppedUsd(ps[i], units, price)
  {
    SoldRisky(ps, i, units, price);
    SaleWorth(ps[i], units, price);
  }

  /** Dollars of dust a fill writes off at the mark prices. */
  function FillDust(l: Ledger, d: Decision, amount: real, price: Prices): real {
    var i := IndexOf(l.positions, d.fromToken);
    if d.side == Sell && TradedPrice(d, price) > 0.0 && i < |l.positions| then
      PoppedUsd(l.positions[i], UnitsSold(l.positions[i], amount, TradedPrice(d, price)), price)
    else 0.0
  }

  lemma PoppedSmall(h: Holding, units: real, price: Prices)
    requires MarkPrice(h, price) > 0.0 && units <= h.qty
    ensures 0.0 <= PoppedUsd(h, units, price) <= Usd(EPS, MarkPrice(h, price))
  {
    var left := h.qty - units;
    if left <= EPS {
      UsdNonNegative(left, MarkPrice(h, price));
      UsdOrdered(left, EPS, MarkPrice(h, price));
    } else {
      UsdNonNegative(EPS, MarkPrice(h, price));
    }
  }

  /** Only a sale writes dust off, and never more than EPS units of it. */
  lemma FillDustSmall(l: Ledger, d: Decision, amount: real, price: Prices)
    ensures d.side != Sell ==> FillDust(l, d, amount, price) == 0.0
    ensures 0.0 <= FillDust(l, d, amount, price)
    ensures TradedPrice(d, price) > 0.0 ==> FillDust(l, d, amount, price) <= Usd(EPS, TradedPrice(d, price))
  {
    var px := TradedPrice(d, price);
    var i := IndexOf(l.positions, d.fromToken);
    if px > 0.0 {
      UsdNonNegative(EPS, px);
      if d.side == Sell && i < |l.positions| {
        PoppedSmall(l.positions[i], UnitsSold(l.positions[i], amount, px), price);
      }
    }
  }

  /** Booking a fill at the mark prices keeps the marked NAV, less the popped dust. */
  lemma FillConserves(l: Ledger, d: Decision, amount: real, price: Prices, now: real)
    ensures MarkedNav(Filled(l, d, amount, price, now), price)
            == MarkedNav(l, price) - FillDust(l, d, amount, price)
  {
    if d.side == Buy && TradedPrice(d, price) > 0.0 {
      BuyConserves(l, d.toToken, amount, price, now);
    } else if d.side == Sell && TradedPrice(d, price) > 0.0 {
      SellConserves(l, d, amount, price, now);
    }
  }

  lemma SellConserves(l: Ledger, d: Decision, amount: real, price: Prices, now: real)
    requires d.side == Sell && TradedPrice(d, price) > 0.0
    ensures MarkedNav(Filled(l, d, amount, price, now), price)
            == MarkedNav(l, price) - FillDust(l, d, amount, price)
  {
    var i := IndexOf(l.positions, d.fromToken);
    if i < |l.positions| {
      SaleConserves(l.positions, i, UnitsSold(l.positions[i], amount, price[d.fromToken]), price);
    }
  }

  lemma FillKeepsSound(l: Ledger, d: Decision, amount: real, price: Prices, now: real)
    requires Sound(l.positions) && amount >= 0.0
    ensures Sound(Filled(l, d, amount, price, now).positions)
    ensures d.side == Sell ==> Filled(l, d, amount, price, now).stable >= l.stable
  {
    var px := TradedPrice(d, price);
    if px > 0.0 {
      QuotientNonNegative(amount, px);
      var i := IndexOf(l.positions, d.fromToken);
      if d.side == Buy {
      } else if d.side == Sell && i < |l.positions| {
        var units := UnitsSold(l.positions[i], amount, px);
        UsdNonNegative(units, px);
      }
    }
  }

  /** A fill keeps the positions sound and cash above -EPS. */
  lemma FillSolvent(l: Ledger, d: Decision, amount: real, price: Prices, now: real)
    requires Sound(l.positions) && amount >= 0.0 && l.stable >= -EPS
    ensures Sound(Filled(l, d, amount, price, now).positions)
    ensures Filled(l, d, amount, price, now).stable >= -EPS
  {
    FillKeepsSound(l, d, amount, price, now);
  }

  // ------------------------------------------------------------ whole runs

  /** Trade caps a config may sensibly set. */
  predicate CapsNonNegative(cfg: Config) { cfg.risk.maxSingleUsd >= 0.0 && cfg.risk.maxSinglePct >= 0.0 }

  lemma FinalNonNegative(pv: Engine.PortfolioView, cfg: Config, amount: real, rung: Rung, roomClamped: bool)
    requires CapsNonNegative(cfg) && amount >= 0.0
    ensures Engine.Finalise(pv, cfg, amount, rung, roomClamped).finalUsd >= 0.0
  {
    CentsKeepsWhole(Min(amount, Engine.TradeCap(pv.nav, cfg, rung)), 0);
  }

  lemma AllowedAmountNonNegative(d: Decision, pv: Engine.PortfolioView, dataAge: real, cfg: Config)
    requires CapsNonNegative(cfg) && d.IsTrade() && Engine.Check(d, pv, dataAge, cfg).Allowed()
    ensures Engine.Check(d, pv, dataAge, cfg).finalUsd >= 0.0
  {
    var rung := Ladder.RungAt(cfg.ladder, pv.drawdownPct);
    if Engine.RoomBinds(d, pv, cfg) {
      UsdNonNegative(Engine.Room(pv, cfg), pv.nav);
      FinalNonNegative(pv, cfg, Engine.RoomUsd(pv, cfg), rung, true);
    } else {
      FinalNonNegative(pv, cfg, d.amountUsd, rung, false);
    }
  }

  lemma TickSound(l: Ledger, f: Feed, cfg: Config)
    requires Sound(l.positions) && l.stable >= -EPS && CapsNonNegative(cfg)
    ensures Sound(Ticked(l, f, cfg).positions) && Ticked(l, f, cfg).stable >= -EPS
    ensures Ticked(l, f, cfg).hwm == l.hwm
  {
    if Orders(l, f, cfg) && f.fills {
      var d := Proposal(l, f, cfg);
      var amount := Ruled(l, f, cfg).finalUsd;
      AllowedAmountNonNegative(d, EngineView(l, f), Max(0.0, f.now - f.dataTs), cfg);
      FillSolvent(Cleared(l, f.live), d, amount, PriceMap(f.views), f.now);
    }
  }

  lemma RoundSound(l: Ledger, f: Feed, cfg: Config)
    requires Sound(l.positions) && l.stable >= -EPS && CapsNonNegative(cfg)
    ensures Sound(Round(l, f, cfg).positions) && Round(l, f, cfg).stable >= -EPS
    ensures Round(l, f, cfg).hwm >= l.hwm
  {
    TickSound(Marked(l, PriceMap(f.views)), f, cfg);
  }

  /** Balances as a wallet reports them: each symbol once, none negative, at non-negative stable prices. */
  ghost predicate ValidWallet(bals: seq<Balance>, price: Prices, quotes: seq<Token>) {
    && (forall i, j :: 0 <= i < j < |bals| ==> bals[i].sym != bals[j].sym)
    && (forall i :: 0 <= i < |bals| ==> bals[i].qty >= 0.0)
    && (forall s :: s in quotes ==> StablePrice(price, s) >= 0.0)
  }

  lemma {:induction false} ChainPositionsSound(bals: seq<Balance>, known: seq<Holding>, price: Prices,
                                               quotes: seq<Token>, now: real)
    requires ValidWallet(bals, price, quotes)
    ensures var ps := ChainPositions(bals, known, price, quotes, now);
            && Sound(ps)
            && forall h :: h in ps ==>
                 exists b :: b in bals && b.sym == h.sym && b.qty == h.qty && Kept(b, price, quotes)
  {
    if bals != [] {
      ChainPositionsSound(bals[..|bals| - 1], known, price, quotes, now);
    }
  }

  lemma {:induction false} BalanceNonNegative(bals: seq<Balance>, sym: Token)
    requires forall i :: 0 <= i < |bals| ==> bals[i].qty >= 0.0
    ensures BalanceOf(bals, sym) >= 0.0
  {
    if bals != [] {
      BalanceNonNegative(bals[1..], sym);
    }
  }

  lemma {:induction false} SumNonNegative<K>(keys: seq<K>, f: K -> real)
    requires forall k :: k in keys ==> f(k) >= 0.0
    ensures Sum(keys, f) >= 0.0
  {
    if keys != [] {
      SumNonNegative(keys[1..], f);
    }
  }

  lemma StableCashNonNegative(quotes: seq<Token>, bals: seq<Balance>, price: Prices)
    requires ValidWallet(bals, price, quotes)
    ensures StableCash(quotes, bals, price) >= 0.0
  {
    var f := (s: Token) => Usd(BalanceOf(bals, s), StablePrice(price, s));
    forall s | s in quotes ensures f(s) >= 0.0 {
      BalanceNonNegative(bals, s);
      UsdNonNegative(BalanceOf(bals, s), StablePrice(price, s));
    }
    SumNonNegative(quotes, f);
  }

  ghost predicate ReadableChain(p: Pass, cfg: Config) {
    p.chain.Some? ==> ValidWallet(p.chain.value, PriceMap(p.feed.views), cfg.quotes)
  }

  lemma PassSound(l: Ledger, p: Pass, cfg: Config)
    requires Sound(l.positions) && l.stable >= -EPS && CapsNonNegative(cfg) && ReadableChain(p, cfg)
    ensures Sound(Passed(l, p, cfg).positions) && Passed(l, p, cfg).stable >= -EPS
    ensures Passed(l, p, cfg).hwm >= l.hwm
  {
    var price := PriceMap(p.feed.views);
    if p.chain.Some? {
      ChainPositionsSound(p.chain.value, l.positions, price, cfg.quotes, p.feed.now);
      StableCashNonNegative(cfg.quotes, p.chain.value, price);
    }
    RoundSound(Reconciled(l, p, cfg), p.feed, cfg);
  }

  /**
   * Over any run, reconciled or not, the ledger never holds a token twice or short, cash stays above -EPS and the
   * high-water mark never falls.
   */
  lemma {:induction false} RunSound(l: Ledger, passes: seq<Pass>, cfg: Config)
    requires Sound(l.positions) && l.stable >= -EPS && CapsNonNegative(cfg)
    requires forall p :: p in passes ==> ReadableChain(p, cfg)
    ensures Sound(Run(l, passes, cfg).positions) && Run(l, passes, cfg).stable >= -EPS
    ensures Run(l, passes, cfg).hwm >= l.hwm
  {
    if passes != [] {
      var n := |passes| - 1;
      RunSound(l, passes[..n], cfg);
      PassSound(Run(l, passes[..n], cfg), passes[n], cfg);
    }
  }

  // ------------------------------------------------------------ the exposure cap

  lemma {:induction false} ViewAgreesWithMark(ps: seq<Holding>, price: Prices)
    requires forall i :: 0 <= i < |ps| ==> ps[i].sym !in price || price[ps[i].sym] > 0.0
    ensures ViewValue(ps, price) == RiskyValue(ps, price)
  {
    if ps != [] {
      ViewAgreesWithMark(ps[..|ps| - 1], price);
    }
  }

  /** Exposure room in dollars is the gap between the cap and the risky value. */
  lemma RoomIsGap(pv: Engine.PortfolioView, risky: real, cfg: Config)
    requires pv.nav > 0.0 && pv.exposure == Units(risky, pv.nav)
    ensures Engine.Room(pv, cfg) > 0.0 ==> Engine.RoomUsd(pv, cfg) == Usd(cfg.risk.maxRisky, pv.nav) - risky
  {
    UsdOfUnits(risky, pv.nav);
    UsdSplit(cfg.risk.maxRisky, pv.exposure, pv.nav);
  }

  /** The ledger was just marked at these prices, which are positive for everything quoted and held. */
  ghost predicate JustMarked(l: Ledger, price: Prices) {
    && Sound(l.positions)
    && l.nav == MarkedNav(l, price)
    && forall i :: 0 <= i < |l.positions| ==> l.positions[i].sym !in price || price[l.positions[i].sym] > 0.0
  }

  lemma RoomOfMarked(l: Ledger, f: Feed, cfg: Config)
    requires JustMarked(l, PriceMap(f.views)) && l.nav > 0.0
    ensures var pv := EngineView(l, f);
            Engine.Room(pv, cfg) > 0.0 ==>
              Engine.RoomUsd(pv, cfg) == Usd(cfg.risk.maxRisky, l.nav) - RiskyValue(l.positions, PriceMap(f.views))
  {
    ViewAgreesWithMark(l.positions, PriceMap(f.views));
    RoomIsGap(EngineView(l, f), RiskyValue(l.positions, PriceMap(f.views)), cfg);
  }

  lemma BuyRisky(l: Ledger, d: Decision, amount: real, price: Prices, now: real)
    requires d.side == Buy
    ensures var after := Filled(l, d, amount, price, now);
            RiskyValue(after.positions, price) == RiskyValue(l.positions, price) + amount
            || after == l
  {
    if TradedPrice(d, price) > 0.0 {
      BuyConserves(l, d.toToken, amount, price, now);
    }
  }

  /**
   * For every config and risk-increasing decision: a trade the engine allows, booked at the marks, leaves risky value
   * within the cap and the amount within the single-trade cap, each to half a cent, and NAV where it was.
   */
  lemma AllowedBuyStaysWithinCaps(l: Ledger, f: Feed, d: Decision, cfg: Config)
    requires JustMarked(l, PriceMap(f.views)) && l.nav > 0.0
    requires d.IsTrade() && Engine.RiskIncreasing(d, cfg)
    requires Engine.Check(d, EngineView(l, f), Max(0.0, f.now - f.dataTs), cfg).Allowed()
    ensures var price := PriceMap(f.views);
            var v := Engine.Check(d, EngineView(l, f), Max(0.0, f.now - f.dataTs), cfg);
            var after := Filled(l, d, v.finalUsd, price, f.now);
            && RiskyValue(after.positions, price) <= Usd(cfg.risk.maxRisky, l.nav) + 0.005
            && MarkedNav(after, price) == l.nav
            && v.finalUsd <= Engine.TradeCap(l.nav, cfg, v.rung) + 0.005
            && (CapsNonNegative(cfg) ==> v.finalUsd >= 0.0)
  {
    var price := PriceMap(f.views);
    var pv := EngineView(l, f);
    var age := Max(0.0, f.now - f.dataTs);
    var amount := Engine.Check(d, pv, age, cfg).finalUsd;
    Engine.AllowedAmountIsCapped(d, pv, age, cfg);
    if CapsNonNegative(cfg) {
      AllowedAmountNonNegative(d, pv, age, cfg);
    }
    GapCovers(l, f, d, cfg);
    BuyWithinRoom(l, d, amount, price, f.now, Usd(cfg.risk.maxRisky, l.nav) + 0.005);
    BuyKeepsNav(l, d, amount, price, f.now);
  }

  /** The allowed amount fits between the risky value and the cap, to half a cent. */
  lemma GapCovers(l: Ledger, f: Feed, d: Decision, cfg: Config)
    requires JustMarked(l, PriceMap(f.views)) && l.nav > 0.0 && d.IsTrade() && Engine.RiskIncreasing(d, cfg)
    requires Engine.Check(d, EngineView(l, f), Max(0.0, f.now - f.dataTs), cfg).Allowed()
    ensures var amount := Engine.Check(d, EngineView(l, f), Max(0.0, f.now - f.dataTs), cfg).finalUsd;
            var risky, limit := RiskyValue(l.positions, PriceMap(f.views)), Usd(cfg.risk.maxRisky, l.nav) + 0.005;
            risky <= limit && risky + amount <= limit
  {
    var pv := EngineView(l, f);
    Engine.AllowedAmountIsCapped(d, pv, Max(0.0, f.now - f.dataTs), cfg);
    RoomOfMarked(l, f, cfg);
    UsdNonNegative(Engine.Room(pv, cfg), pv.nav);
  }

  lemma BuyKeepsNav(l: Ledger, d: Decision, amount: real, price: Prices, now: real)
    requires d.side == Buy
    ensures MarkedNav(Filled(l, d, amount, price, now), price) == MarkedNav(l, price)
  {
    FillConserves(l, d, amount, price, now);
    FillDustSmall(l, d, amount, price);
  }

  /** Booking a buy of no more than the gap to a limit keeps risky value within the limit. */
  lemma BuyWithinRoom(l: Ledger, d: Decision, amount: real, price: Prices, now: real, limit: real)
    requires d.side == Buy
    requires RiskyValue(l.positions, price) <= limit && RiskyValue(l.positions, price) + amount <= limit
    ensures RiskyValue(Filled(l, d, amount, price, now).positions, price) <= limit
  {
    BuyRisky(l, d, amount, price, now);
  }
}
