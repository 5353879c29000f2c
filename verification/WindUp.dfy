// Flattening without reconciliation: exactly which books the loop sells out, pass by pass, and one it never does.
module WindUp {
  import opened Types
  import opened Money
  import opened Survival
  import opened Core
  import opened Fills
  import opened Adherence
  import opened WholeRun
  import opened Flatten
  import Engine
  import Ladder

  // ------------------------------------------------------------ one position, in dollars

  /** What a pass sells of a position worth v: its value to the cent, under the cap to the cent. */
  function Offer(v: real, cap: real): real { Cents(Min(Cents(v), cap)) }

  /** What is left of the value after one sale. */
  function Remainder(v: real, cap: real): real { v - Min(v, Offer(v, cap)) }

  lemma CentsIsWhole(x: real) returns (n: int)
    ensures Cents(x) == n as real / 100.0
  {
    n := RoundHalfEven(x * 100.0);
  }

  lemma OfferShrinks(v: real, cap: real)
    requires v > 0.0 && Offer(v, cap) > 0.0 && Remainder(v, cap) > 0.0
    ensures Remainder(v, cap) == v - Offer(v, cap) && 0 <= (Remainder(v, cap) * 100.0).Floor < (v * 100.0).Floor
  {
    var n := CentsIsWhole(Min(Cents(v), cap));
    assert n >= 1;
    assert Remainder(v, cap) * 100.0 == v * 100.0 - n as real;
  }

  /** A position is sold out when what is left is dust; nothing, when a sale stops moving it before that. */
  function Outcome(v: real, cap: real, dust: real): (left: Option<real>)
    requires v > 0.0 && dust >= 0.0
    ensures left.Some? ==> 0.0 <= left.value <= dust
    decreases (v * 100.0).Floor
  {
    if Cents(v) <= 0.0 then None
    else if Remainder(v, cap) <= dust then RemainderNonNegative(v, cap); Some(Remainder(v, cap))
    else if Offer(v, cap) <= 0.0 then None
    else
      OfferShrinks(v, cap);
      Outcome(Remainder(v, cap), cap, dust)
  }

  lemma RemainderNonNegative(v: real, cap: real)
    ensures Remainder(v, cap) >= 0.0
  {
  }

  /** How many sales that takes. */
  function Sales(v: real, cap: real, dust: real): nat
    requires v > 0.0 && dust >= 0.0
    decreases (v * 100.0).Floor
  {
    if Cents(v) <= 0.0 then 0
    else if Remainder(v, cap) <= dust then 1
    else if Offer(v, cap) <= 0.0 then 0
    else
      OfferShrinks(v, cap);
      1 + Sales(Remainder(v, cap), cap, dust)
  }

  // ------------------------------------------------------------ a book, position by position

  /** Everything held has a positive quantity and a positive price. */
  ghost predicate Priced(ps: seq<Holding>, price: Prices) {
    forall h :: h in ps ==> h.qty > 0.0 && h.sym in price && price[h.sym] > 0.0
  }

  function Cap(nav: real): real { Engine.TradeCap(nav, LIVE, StablecoinMode) }

  function ValueOf(h: Holding, price: Prices): real
    requires h.sym in price
  {
    Usd(h.qty, price[h.sym])
  }

  function DustOf(h: Holding, price: Prices): real
    requires h.sym in price
  {
    Usd(EPS, price[h.sym])
  }

  lemma PricedFirst(ps: seq<Holding>, price: Prices)
    requires ps != [] && Priced(ps, price)
    ensures ps[0].qty > 0.0 && ps[0].sym in price && price[ps[0].sym] > 0.0
    ensures ValueOf(ps[0], price) > 0.0 && DustOf(ps[0], price) >= 0.0 && Priced(ps[1..], price)
  {
    assert ps[0] in ps;
    assert price[ps[0].sym] > 0.0;
    UsdNonNegative(EPS, price[ps[0].sym]);
    assert ps[0].qty * price[ps[0].sym] > 0.0;
  }

  /** The positions are sold out one after the other; each may write off a little dust. */
  ghost predicate SellsOut(ps: seq<Holding>, nav: real, price: Prices)
    requires Priced(ps, price)
    decreases |ps|
  {
    ps == [] ||
      (PricedFirst(ps, price);
       var left := Outcome(ValueOf(ps[0], price), Cap(nav), DustOf(ps[0], price));
       left.Some? && SellsOut(ps[1..], nav - left.value, price))
  }

  /** How many passes that takes. */
  ghost function Passes(ps: seq<Holding>, nav: real, price: Prices): nat
    requires Priced(ps, price)
    decreases |ps|
  {
    if ps == [] then 0
    else
      PricedFirst(ps, price);
      var left := Outcome(ValueOf(ps[0], price), Cap(nav), DustOf(ps[0], price));
      Sales(ValueOf(ps[0], price), Cap(nav), DustOf(ps[0], price))
      + if left.Some? then Passes(ps[1..], nav - left.value, price) else 0
  }

  // ------------------------------------------------------------ one pass

  /** Just marked in stablecoin mode, holding priced universe tokens only, no debt, no count against the hour. */
  ghost predicate Winding(l: Ledger, price: Prices) {
    && JustMarked(l, price) && Priced(l.positions, price) && UniverseOnly(l.positions, LIVE)
    && l.stable >= 0.0 && l.hwm >= l.nav && Drawdown(l) >= 3.0 && l.tradesLastHour < 4
  }

  /** Fresh data at these prices, the swap fills, and the last trade is at least 900 seconds back. */
  ghost predicate Ready(l: Ledger, f: Feed, price: Prices) {
    && PriceMap(f.views) == price && f.fills && f.now - f.dataTs <= 600.0
    && (l.lastTrade != 0.0 ==> f.now - l.lastTrade >= 900.0)
  }

  lemma ExitOffered(l: Ledger, f: Feed, price: Prices)
    requires Winding(l, price) && Ready(l, f, price) && l.positions != []
    ensures var h := l.positions[0];
            && h.sym in price
            && Proposal(l, f, LIVE) == Decision(Sell, "bsc", h.sym, LIVE.quotes[0], Cents(ValueOf(h, price)))
  {
    PricedFirst(l.positions, price);
    StablecoinRung(l);
    assert ExitDue(l.positions[0], price, StablecoinMode, LIVE, f.now);
    assert FirstExit(l.positions, price, StablecoinMode, LIVE, f.now) == 0;
  }

  lemma NavPositive(l: Ledger, price: Prices)
    requires Winding(l, price) && l.positions != []
    ensures l.nav > 0.0
  {
    RiskyPositive(l.positions, price);
  }

  lemma {:induction false} RiskyPositive(ps: seq<Holding>, price: Prices)
    requires Priced(ps, price)
    ensures RiskyValue(ps, price) >= 0.0 && (ps != [] ==> RiskyValue(ps, price) > 0.0)
  {
    if ps != [] {
      var n := |ps| - 1;
      assert ps[n] in ps;
      RiskyPositive(ps[..n], price);
      assert ps[n].qty * price[ps[n].sym] > 0.0;
    }
  }

  /** The engine lets any real exit through, clamped to the cap. */
  lemma ExitRuled(l: Ledger, f: Feed, price: Prices)
    requires Winding(l, price) && Ready(l, f, price) && l.positions != []
    requires l.positions[0].sym in price && Cents(ValueOf(l.positions[0], price)) > 0.0
    ensures Orders(l, f, LIVE) && Ruled(l, f, LIVE).finalUsd == Offer(ValueOf(l.positions[0], price), Cap(l.nav))
  {
    ExitOffered(l, f, price);
    CommittedPolicyClosed();
    StablecoinRung(l);
    NavPositive(l, price);
    assert l.positions[0].sym in LIVE.universe;
    ExitAllowedAtAnySize(Proposal(l, f, LIVE), EngineView(l, f), Max(0.0, f.now - f.dataTs));
  }

  lemma ExitAllowedAtAnySize(d: Decision, pv: Engine.PortfolioView, age: real)
    requires PolicyClosed(LIVE)
    requires d.side == Sell && d.chain == "bsc" && d.fromToken in LIVE.universe && d.toToken == LIVE.quotes[0]
    requires d.amountUsd > 0.0 && age <= 600.0 && pv.tradesLastHour < 4 && pv.sinceLastTrade >= 900.0
    requires Ladder.RungAt(LIVE.ladder, pv.drawdownPct) == StablecoinMode
    ensures Engine.Check(d, pv, age, LIVE).Allowed()
    ensures Engine.Check(d, pv, age, LIVE).finalUsd == Cents(Min(d.amountUsd, Cap(pv.nav)))
  {
    assert Engine.RiskReducing(d, LIVE) && !Engine.RiskIncreasing(d, LIVE);
    assert Engine.Gate(d, pv, age, LIVE, StablecoinMode).None?;
    assert Engine.RateLimit(pv, LIVE).None?;
  }

  /** Units the sale of the offered amount takes off a position. */
  function UnitsOff(h: Holding, price: Prices, nav: real): real
    requires h.sym in price && price[h.sym] > 0.0
  {
    UnitsSold(h, Offer(ValueOf(h, price), Cap(nav)), price[h.sym])
  }

  lemma OfferNonNegative(v: real, nav: real)
    requires v > 0.0 && nav > 0.0
    ensures Offer(v, Cap(nav)) >= 0.0
  {
    UsdNonNegative(nav, LIVE.risk.maxSinglePct);
    CentsKeepsWhole(v, 0);
    CentsKeepsWhole(Min(Cents(v), Cap(nav)), 0);
  }

  /**
   * In dollars: the units sold are worth the offer or the whole, and what stays is dust by value exactly when by count.
   */
  lemma UnitsInDollars(h: Holding, price: Prices, nav: real)
    requires h.qty > 0.0 && h.sym in price && price[h.sym] > 0.0 && nav > 0.0
    ensures var v, px, units := ValueOf(h, price), price[h.sym], UnitsOff(h, price, nav);
            && 0.0 <= units <= h.qty
            && Usd(units, px) == Min(v, Offer(v, Cap(nav))) && Usd(h.qty - units, px) == Remainder(v, Cap(nav))
            && (h.qty - units <= EPS <==> Remainder(v, Cap(nav)) <= DustOf(h, price))
  {
    var v, px, units := ValueOf(h, price), price[h.sym], UnitsOff(h, price, nav);
    var a := Offer(v, Cap(nav));
    assert v > 0.0 by {
      assert h.qty * px > 0.0;
    }
    OfferNonNegative(v, nav);
    UsdOfUnits(a, px);
    QuotientNonNegative(a, px);
    if h.qty <= Units(a, px) {
      UsdOrdered(h.qty, Units(a, px), px);
    } else {
      UsdOrdered(Units(a, px), h.qty, px);
    }
    UsdSplit(h.qty, units, px);
    StrictlyOrdered(h.qty - units, EPS, px);
  }

  lemma StrictlyOrdered(a: real, b: real, px: real)
    requires px > 0.0
    ensures a <= b <==> Usd(a, px) <= Usd(b, px)
  {
    UsdSplit(a, b, px);
    if a > b {
      assert (a - b) * px > 0.0;
      assert Usd(a - b, px) > 0.0;
    } else {
      UsdOrdered(a, b, px);
    }
  }

  function Next(l: Ledger, f: Feed): Ledger { Passed(l, Pass(None, f), LIVE) }

  /** A pass without reconciliation over a ledger already marked: tick, then mark. */
  lemma NextIs(l: Ledger, f: Feed, price: Prices)
    requires Winding(l, price) && PriceMap(f.views) == price
    ensures Next(l, f) == Marked(Ticked(l, f, LIVE), price)
  {
    assert Marked(l, price) == l;
  }

  lemma TickStuck(l: Ledger, f: Feed, price: Prices)
    requires Winding(l, price) && Ready(l, f, price) && l.positions != []
    requires l.positions[0].sym in price && Cents(ValueOf(l.positions[0], price)) <= 0.0
    ensures Ticked(l, f, LIVE) == l.(pending := None)
  {
    ExitOffered(l, f, price);
  }

  /** A pass over an unsellable first position changes nothing but a pending intent. */
  lemma PassStuck(l: Ledger, f: Feed, price: Prices)
    requires Winding(l, price) && Ready(l, f, price) && l.positions != []
    requires l.positions[0].sym in price && Cents(ValueOf(l.positions[0], price)) <= 0.0
    ensures Next(l, f) == l.(pending := None)
  {
    NextIs(l, f, price);
    TickStuck(l, f, price);
  }

  /** The positions after the sale of a pass. */
  function AfterSale(ps: seq<Holding>, price: Prices, nav: real): seq<Holding>
    requires ps != [] && ps[0].sym in price && price[ps[0].sym] > 0.0
  {
    Sold(ps, 0, UnitsOff(ps[0], price, nav))
  }

  lemma SaleBooked(l: Ledger, f: Feed, price: Prices)
    requires Winding(l, price) && Ready(l, f, price) && l.positions != []
    requires l.positions[0].sym in price && price[l.positions[0].sym] > 0.0
    requires Cents(ValueOf(l.positions[0], price)) > 0.0
    ensures var t := Ticked(l, f, LIVE);
            && t.positions == AfterSale(l.positions, price, l.nav)
            && t.stable == l.stable + Usd(UnitsOff(l.positions[0], price, l.nav), price[l.positions[0].sym])
            && t.hwm == l.hwm && t.tradesLastHour == l.tradesLastHour && t.lastTrade == f.now
  {
    ExitOffered(l, f, price);
    ExitRuled(l, f, price);
    assert IndexOf(l.positions, l.positions[0].sym) == 0;
  }

  /** A pass over a sellable first position: gone with its dust, or smaller by the offer; value is lost only as dust. */
  lemma PassSellsFirst(l: Ledger, f: Feed, price: Prices)
    requires Winding(l, price) && Ready(l, f, price) && l.positions != []
    requires l.positions[0].sym in price && price[l.positions[0].sym] > 0.0 && l.positions[0].qty > 0.0
    requires Cents(ValueOf(l.positions[0], price)) > 0.0
    ensures var h, t := l.positions[0], Next(l, f);
            var rest := Remainder(ValueOf(h, price), Cap(l.nav));
            && t.positions == AfterSale(l.positions, price, l.nav)
            && t.nav == MarkedNav(t, price) == l.nav - (if rest <= DustOf(h, price) then rest else 0.0) && rest >= 0.0
            && t.stable >= l.stable && t.hwm == l.hwm && t.tradesLastHour == l.tradesLastHour && t.lastTrade == f.now
  {
    var h, t := l.positions[0], Ticked(l, f, LIVE);
    NavPositive(l, price);
    NextIs(l, f, price);
    SaleBooked(l, f, price);
    SaleValue(l, price, t);
    UsdNonNegative(UnitsOff(h, price, l.nav), price[h.sym]);
  }

  lemma SaleValue(l: Ledger, price: Prices, t: Ledger)
    requires JustMarked(l, price) && l.nav > 0.0 && l.positions != []
    requires l.positions[0].sym in price && price[l.positions[0].sym] > 0.0 && l.positions[0].qty > 0.0
    requires t.positions == AfterSale(l.positions, price, l.nav)
    requires t.stable == l.stable + Usd(UnitsOff(l.positions[0], price, l.nav), price[l.positions[0].sym])
    ensures var h := l.positions[0];
            var rest := Remainder(ValueOf(h, price), Cap(l.nav));
            && UnitsOff(h, price, l.nav) >= 0.0 && rest >= 0.0
            && MarkedNav(t, price) == l.nav - (if rest <= DustOf(h, price) then rest else 0.0)
  {
    var h := l.positions[0];
    UnitsInDollars(h, price, l.nav);
    SaleConserves(l.positions, 0, UnitsOff(h, price, l.nav), price);
    RemainderNonNegative(ValueOf(h, price), Cap(l.nav));
  }

  /** The first position after the sale, or its absence. */
  lemma AfterSaleShape(ps: seq<Holding>, price: Prices, nav: real)
    requires ps != [] && Priced(ps, price) && nav > 0.0
    requires ps[0].sym in price && price[ps[0].sym] > 0.0
    ensures var h := ps[0];
            var rest := Remainder(ValueOf(h, price), Cap(nav));
            var after := AfterSale(ps, price, nav);
            && Priced(after, price)
            && if rest <= DustOf(h, price) then after == ps[1..]
               else |after| == |ps| && after[1..] == ps[1..] && after[0].sym == h.sym
                    && ValueOf(after[0], price) == rest
  {
    assert ps[0] in ps;
    UnitsInDollars(ps[0], price, nav);
    var after := AfterSale(ps, price, nav);
    assert ps[..0] + ps[1..] == ps[1..];
    forall h | h in after ensures h.qty > 0.0 && h.sym in price && price[h.sym] > 0.0 {
      if h !in ps {
        assert h == after[0];
      }
    }
  }

  // ------------------------------------------------------------ what a pass does to the forecast

  /** Will the book be sold out, and in how many passes from here? */
  datatype Forecast = Forecast(sellsOut: bool, passes: nat)

  ghost function ForecastOf(ps: seq<Holding>, nav: real, price: Prices): Forecast
    requires Priced(ps, price)
  {
    Forecast(SellsOut(ps, nav, price), Passes(ps, nav, price))
  }

  function Sooner(c: Forecast): Forecast { c.(passes := if c.passes > 0 then c.passes - 1 else 0) }

  lemma KeepsWinding(l: Ledger, t: Ledger, price: Prices)
    requires Winding(l, price) && Priced(t.positions, price) && UniverseOnly(t.positions, LIVE) && Sound(t.positions)
    requires t.nav == MarkedNav(t, price) <= l.nav && t.hwm == l.hwm && t.stable >= l.stable
    requires t.tradesLastHour == l.tradesLastHour
    ensures Winding(t, price)
  {
    DrawdownGrows(l, t);
  }

  lemma AfterSaleSound(l: Ledger, price: Prices)
    requires Winding(l, price) && l.positions != []
    requires l.positions[0].sym in price && price[l.positions[0].sym] > 0.0 && l.positions[0].qty > 0.0 && l.nav > 0.0
    ensures Sound(AfterSale(l.positions, price, l.nav)) && UniverseOnly(AfterSale(l.positions, price, l.nav), LIVE)
  {
    UnitsInDollars(l.positions[0], price, l.nav);
  }

  /** A pass over an empty book changes nothing of it. */
  lemma PassEmpty(l: Ledger, f: Feed, price: Prices)
    requires Winding(l, price) && Ready(l, f, price) && l.positions == []
    ensures Next(l, f) == l.(pending := None)
  {
    NextIs(l, f, price);
    EmptyOrdersNothing(l, f);
  }

  /** A sale brings the forecast one pass nearer. */
  lemma SaleForecast(ps: seq<Holding>, price: Prices, nav: real)
    requires ps != [] && Priced(ps, price) && nav > 0.0
    requires ps[0].sym in price && price[ps[0].sym] > 0.0 && Cents(ValueOf(ps[0], price)) > 0.0
    ensures var rest := Remainder(ValueOf(ps[0], price), Cap(nav));
            var after := AfterSale(ps, price, nav);
            && Priced(after, price)
            && ForecastOf(after, nav - (if rest <= DustOf(ps[0], price) then rest else 0.0), price)
               == Sooner(ForecastOf(ps, nav, price))
  {
    PricedFirst(ps, price);
    AfterSaleShape(ps, price, nav);
    var v, cap, dust := ValueOf(ps[0], price), Cap(nav), DustOf(ps[0], price);
    var rest := Remainder(v, cap);
    if rest > dust {
      var after := AfterSale(ps, price, nav);
      PricedFirst(after, price);
      OfferNonNegative(v, nav);
      if Offer(v, cap) > 0.0 {
        OfferShrinks(v, cap);
      }
      assert ValueOf(after[0], price) == rest && DustOf(after[0], price) == dust;
    }
  }

  /** Every pass keeps the loop winding down, the verdict of the forecast, and brings its end one pass nearer. */
  lemma PassKeepsForecast(l: Ledger, f: Feed, price: Prices)
    requires Winding(l, price) && Ready(l, f, price)
    ensures var t := Next(l, f);
            && Winding(t, price) && (t.lastTrade == l.lastTrade || t.lastTrade == f.now)
            && ForecastOf(t.positions, t.nav, price) == Sooner(ForecastOf(l.positions, l.nav, price))
  {
    if l.positions == [] {
      PassEmpty(l, f, price);
      KeepsWinding(l, l.(pending := None), price);
    } else {
      PricedFirst(l.positions, price);
      if Cents(ValueOf(l.positions[0], price)) <= 0.0 {
        PassStuck(l, f, price);
        KeepsWinding(l, l.(pending := None), price);
      } else {
        SellingPassKeepsForecast(l, f, price);
      }
    }
  }

  lemma SellingPassKeepsForecast(l: Ledger, f: Feed, price: Prices)
    requires Winding(l, price) && Ready(l, f, price) && l.positions != []
    requires l.positions[0].sym in price && price[l.positions[0].sym] > 0.0 && l.positions[0].qty > 0.0
    requires Cents(ValueOf(l.positions[0], price)) > 0.0
    ensures var t := Next(l, f);
            && Winding(t, price) && t.lastTrade == f.now
            && ForecastOf(t.positions, t.nav, price) == Sooner(ForecastOf(l.positions, l.nav, price))
  {
    NavPositive(l, price);
    PassSellsFirst(l, f, price);
    SaleForecast(l.positions, price, l.nav);
    AfterSaleSound(l, price);
    KeepsWinding(l, Next(l, f), price);
  }

  // ------------------------------------------------------------ whole runs

  /** Passes that never read the chain, on fresh data at fixed prices, with swaps that fill, 900 seconds apart. */
  ghost predicate Blind(l: Ledger, passes: seq<Pass>, price: Prices) {
    forall i :: 0 <= i < |passes| ==> BlindAt(l, passes, price, i)
  }

  ghost predicate BlindAt(l: Ledger, passes: seq<Pass>, price: Prices, i: nat)
    requires i < |passes|
  {
    && passes[i].chain == None && PriceMap(passes[i].feed.views) == price
    && passes[i].feed.fills && passes[i].feed.now - passes[i].feed.dataTs <= 600.0
    && (if i > 0 then passes[i].feed.now >= passes[i - 1].feed.now + 900.0
        else l.lastTrade != 0.0 ==> passes[i].feed.now - l.lastTrade >= 900.0)
  }

  lemma BlindPrefix(l: Ledger, passes: seq<Pass>, price: Prices, n: nat)
    requires Blind(l, passes, price) && n <= |passes|
    ensures Blind(l, passes[..n], price)
  {
    forall i | 0 <= i < n ensures BlindAt(l, passes[..n], price, i) {
      assert BlindAt(l, passes, price, i);
    }
  }

  /** The forecast after n passes. */
  function After(c: Forecast, n: nat): Forecast { c.(passes := if c.passes > n then c.passes - n else 0) }

  /** The last trade is not later than the last pass. */
  ghost predicate Timely(l: Ledger, t: Ledger, passes: seq<Pass>) {
    if passes == [] then t.lastTrade == l.lastTrade
    else t.lastTrade == 0.0 || t.lastTrade <= passes[|passes| - 1].feed.now
  }

  lemma ReadyForNext(l: Ledger, t: Ledger, passes: seq<Pass>, price: Prices, n: nat)
    requires n < |passes| && BlindAt(l, passes, price, n) && Timely(l, t, passes[..n])
    ensures passes[n] == Pass(None, passes[n].feed) && Ready(t, passes[n].feed, price)
    ensures t.lastTrade == 0.0 || t.lastTrade <= passes[n].feed.now
  {
  }

  lemma RunIsNext(l: Ledger, passes: seq<Pass>, n: nat)
    requires |passes| == n + 1 && passes[n] == Pass(None, passes[n].feed)
    ensures Run(l, passes, LIVE) == Next(Run(l, passes[..n], LIVE), passes[n].feed)
  {
  }

  /** What a run of passes does to ledger and forecast. */
  ghost predicate WoundDown(l: Ledger, t: Ledger, passes: seq<Pass>, price: Prices)
    requires Winding(l, price)
  {
    && Winding(t, price) && Timely(l, t, passes)
    && ForecastOf(t.positions, t.nav, price) == After(ForecastOf(l.positions, l.nav, price), |passes|)
  }

  /** One more pass over a run so far. */
  lemma {:induction false} WoundDownNext(l: Ledger, t: Ledger, passes: seq<Pass>, price: Prices, n: nat)
    requires Winding(l, price) && Blind(l, passes, price) && |passes| == n + 1 && WoundDown(l, t, passes[..n], price)
    ensures passes[n] == Pass(None, passes[n].feed) && WoundDown(l, Next(t, passes[n].feed), passes, price)
  {
    assert BlindAt(l, passes, price, n);
    ReadyForNext(l, t, passes, price, n);
    PassKeepsForecast(t, passes[n].feed, price);
  }

  lemma {:induction false} RunKeepsForecast(l: Ledger, passes: seq<Pass>, price: Prices)
    requires Winding(l, price) && Blind(l, passes, price)
    ensures WoundDown(l, Run(l, passes, LIVE), passes, price)
  {
    if passes != [] {
      var n := |passes| - 1;
      BlindPrefix(l, passes, price, n);
      RunKeepsForecast(l, passes[..n], price);
      WoundDownNext(l, Run(l, passes[..n], LIVE), passes, price, n);
      RunIsNext(l, passes, n);
    }
  }

  lemma SoldOutSales(v: real, cap: real, dust: real)
    requires v > 0.0 && dust >= 0.0 && Outcome(v, cap, dust).Some?
    ensures Sales(v, cap, dust) > 0
  {
  }

  /** A forecast of no further pass for a book that sells out means the book is empty. */
  lemma DoneMeansEmpty(ps: seq<Holding>, nav: real, price: Prices)
    requires Priced(ps, price)
    ensures ps == [] <==> SellsOut(ps, nav, price) && Passes(ps, nav, price) == 0
  {
    if ps != [] {
      PricedFirst(ps, price);
      if SellsOut(ps, nav, price) {
        SoldOutSales(ValueOf(ps[0], price), Cap(nav), DustOf(ps[0], price));
      }
    }
  }

  /**
   * Exactly when the loop empties a book without reading the chain: after any number of passes the book is empty if and
   * only if every position in turn sells out, and that many passes have gone by.
   */
  lemma EmptyIff(l: Ledger, passes: seq<Pass>, price: Prices)
    requires Winding(l, price) && Blind(l, passes, price)
    ensures Run(l, passes, LIVE).positions == [] <==>
            SellsOut(l.positions, l.nav, price) && |passes| >= Passes(l.positions, l.nav, price)
  {
    RunKeepsForecast(l, passes, price);
    var t := Run(l, passes, LIVE);
    DoneMeansEmpty(t.positions, t.nav, price);
  }

  // ------------------------------------------------------------ the forecast without simulating it

  /** Exactly half a cent over a whole number of cents. */
  predicate Tie(v: real) { v * 100.0 - (v * 100.0).Floor as real == 0.5 }

  lemma FloorShift(x: real, k: int)
    ensures (x - k as real).Floor == x.Floor - k
  {
  }

  lemma CentsShift(v: real, k: int)
    requires !Tie(v)
    ensures Cents(v - k as real / 100.0) == Cents(v) - k as real / 100.0 && !Tie(v - k as real / 100.0)
  {
    var x := v * 100.0;
    assert (v - k as real / 100.0) * 100.0 == x - k as real;
    FloorShift(x, k);
  }

  lemma CentsOfCents(v: real)
    ensures Cents(Cents(v)) == Cents(v)
  {
    var n := CentsIsWhole(v);
    Engine.CentsOfWhole(n);
  }

  /** The offer is a whole number of cents, positive, and at most the value to the cent. */
  lemma OfferInCents(v: real, cap: real) returns (n: int)
    requires Cents(v) > 0.0 && Cents(cap) > 0.0
    ensures Offer(v, cap) == n as real / 100.0 && 0.0 < Offer(v, cap) <= Cents(v)
    ensures Cents(v) <= cap ==> Offer(v, cap) == Cents(v)
  {
    n := CentsIsWhole(Min(Cents(v), cap));
    CentsOfCents(v);
    CentsKeepsOrder(Min(Cents(v), cap), Cents(v));
  }

  lemma RestOfTie(v: real)
    requires Tie(v)
    ensures Cents(v - Cents(v)) <= 0.0
  {
    var x := v * 100.0;
    var n := RoundHalfEven(x);
    assert (v - Cents(v)) * 100.0 == x - n as real;
    assert x - n as real == 0.5 || x - n as real == -0.5;
  }

  /**
   * A position worth at least a cent, under a cap of at least a cent, sells out exactly when rounding its value to the
   * cent leaves no more than dust. Capped sales take whole cents off, so they do not change that, except on a tie.
   */
  lemma {:induction false} SellsOutIff(v: real, cap: real, dust: real)
    requires v > 0.0 && dust >= 0.0 && Cents(v) > 0.0 && Cents(cap) > 0.0 && (Tie(v) ==> Cents(v) <= cap)
    ensures Outcome(v, cap, dust).Some? <==> Cents(v) >= v - dust
    decreases (v * 100.0).Floor
  {
    var n := OfferInCents(v, cap);
    var rest := Remainder(v, cap);
    if rest > dust {
      OfferShrinks(v, cap);
      if Tie(v) {
        RestOfTie(v);
      } else {
        CentsShift(v, n);
        if Cents(rest) > 0.0 {
          SellsOutIff(rest, cap, dust);
        }
      }
    }
  }

  function DustSum(ps: seq<Holding>, price: Prices): real
    requires forall h :: h in ps ==> h.sym in price
  {
    if ps == [] then 0.0 else DustOf(ps[0], price) + DustSum(ps[1..], price)
  }

  /** Rounding this position's value to the cent leaves no more than dust. */
  predicate Clean(h: Holding, price: Prices)
    requires h.sym in price
  {
    Cents(ValueOf(h, price)) >= Usd(h.qty - EPS, price[h.sym])
  }

  lemma CapIsACent(nav: real)
    requires nav >= 0.5
    ensures Cents(Cap(nav)) > 0.0
  {
    assert Usd(nav, LIVE.risk.maxSinglePct) == nav * 0.025;
    CentsKeepsWhole(Cap(nav), 1);
  }

  lemma CleanInDollars(h: Holding, price: Prices)
    requires h.sym in price
    ensures Clean(h, price) <==> Cents(ValueOf(h, price)) >= ValueOf(h, price) - DustOf(h, price)
  {
    UsdSplit(h.qty, EPS, price[h.sym]);
  }

  /** So a book of positions worth a cent or more, none on a tie, sells out exactly when every position is clean. */
  lemma {:induction false} CleanBookSellsOut(ps: seq<Holding>, nav: real, price: Prices)
    requires Priced(ps, price) && nav - DustSum(ps, price) >= 0.5
    requires forall h :: h in ps ==> Cents(ValueOf(h, price)) > 0.0 && !Tie(ValueOf(h, price))
    ensures SellsOut(ps, nav, price) <==> forall h :: h in ps ==> Clean(h, price)
    decreases |ps|
  {
    if ps != [] {
      PricedFirst(ps, price);
      DustSumNonNegative(ps[1..], price);
      assert ps[0] in ps && forall h :: h in ps <==> h == ps[0] || h in ps[1..];
      CapIsACent(nav);
      CleanInDollars(ps[0], price);
      SellsOutIff(ValueOf(ps[0], price), Cap(nav), DustOf(ps[0], price));
      var left := Outcome(ValueOf(ps[0], price), Cap(nav), DustOf(ps[0], price));
      if left.Some? {
        CleanBookSellsOut(ps[1..], nav - left.value, price);
      }
    }
  }

  lemma {:induction false} DustSumNonNegative(ps: seq<Holding>, price: Prices)
    requires Priced(ps, price)
    ensures DustSum(ps, price) >= 0.0
  {
    if ps != [] {
      PricedFirst(ps, price);
      DustSumNonNegative(ps[1..], price);
    }
  }

  // ------------------------------------------------------------ a book that is never sold out

  const ONE_ETH := Holding("ETH", 1.0, 10.0, 0.0)
  const UNCLEAN := Ledger([ONE_ETH], 489.996, 500.0, 520.0, 0.0, 0, 0, 0, None)

  lemma UncleanIsWinding(price: Prices)
    requires price == map["ETH" := 10.004]
    ensures Winding(UNCLEAN, price)
  {
    assert [ONE_ETH][..0] == [];
    assert RiskyValue([ONE_ETH], price) == 10.004;
    assert LIVE.universe[2] == "ETH";
  }

  /**
   * One unit at $10.004, NAV 500: its exit is for ten dollars, and the rest of 0.4 cents stays after any number of
   * passes.
   */
  lemma NeverSoldOut(passes: seq<Pass>, price: Prices)
    requires price == map["ETH" := 10.004] && Blind(UNCLEAN, passes, price)
    ensures Run(UNCLEAN, passes, LIVE).positions != []
  {
    UncleanIsWinding(price);
    EmptyIff(UNCLEAN, passes, price);
    assert Cents(10.004) == 10.0 && (1000.4 as real).Floor == 1000;
    assert ValueOf(ONE_ETH, price) == 10.004 && DustOf(ONE_ETH, price) == EPS * 10.004;
    CapIsACent(500.0);
    SellsOutIff(10.004, Cap(500.0), EPS * 10.004);
  }
}
