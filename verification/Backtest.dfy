// backtest/portfolio.py: the mutable Portfolio, with its high-water mark and histories.
module Backtest {
  import opened Types
  import opened Money
  import opened Account

  /** The high-water mark and the two histories. */
  datatype Gauge = Gauge(hwm: real, navs: seq<real>, drawdowns: seq<real>)

  /** Fall from a peak, in percent; no fall from a peak that is not positive. */
  function Fall(peak: real, nav: real): real {
    if peak <= 0.0 then 0.0 else Units(peak - nav, peak) * 100.0
  }

  function Marked(g: Gauge, nav: real): Gauge {
    var hwm := Max(g.hwm, nav);
    Gauge(hwm, g.navs + [nav], g.drawdowns + [Fall(hwm, nav)])
  }

  function Rebased(g: Gauge, nav: real): Gauge {
    Gauge(nav, g.navs, if g.drawdowns == [] then [] else g.drawdowns[|g.drawdowns| - 1 := 0.0])
  }

  class Portfolio {
    var cash: real
    var order: seq<Token>
    var positions: map<Token, real>
    var entryPrice: map<Token, real>
    var entryHour: map<Token, int>
    var hwm: real
    var navHistory: seq<real>
    var drawdownHistory: seq<real>
    var tradeCount: nat
    var hoursInMarket: nat
    var flatSince: Option<int>

    ghost function BookNow(): Book
      reads this
    {
      Book(cash, order, positions, entryPrice, entryHour, tradeCount)
    }

    ghost function GaugeNow(): Gauge
      reads this
    {
      Gauge(hwm, navHistory, drawdownHistory)
    }

    ghost predicate Valid()
      reads this
    {
      Sound(BookNow())
    }

    constructor (initialCash: real, cash: real)
      requires initialCash >= 0.0 && cash >= 0.0
      ensures Valid() && order == [] && this.cash == (if cash == 0.0 then initialCash else cash)
      ensures GaugeNow() == Gauge(this.cash, [], []) && flatSince == None && hoursInMarket == 0
    {
      this.cash := if cash == 0.0 then initialCash else cash;
      order, positions, entryPrice, entryHour := [], map[], map[], map[];
      hwm := if cash == 0.0 then initialCash else cash;
      navHistory, drawdownHistory, tradeCount, hoursInMarket, flatSince := [], [], 0, 0, None;
    }

    /** sum(qty * price) over the open positions */
    function RiskyValue(prices: Prices): real
      reads this
    {
      Risky(Book(cash, order, positions, entryPrice, entryHour, tradeCount), prices)
    }

    function NavAt(prices: Prices): (n: real)
      reads this
      ensures n == Nav(BookNow(), prices)
    {
      cash + RiskyValue(prices)
    }

    function RiskyRatio(prices: Prices): real
      reads this
    {
      if NavAt(prices) <= 0.0 then 0.0 else Units(RiskyValue(prices), NavAt(prices))
    }

    function CurrentDrawdown(): real
      reads this
    {
      if drawdownHistory == [] then 0.0 else drawdownHistory[|drawdownHistory| - 1]
    }

    method Mark(prices: Prices) returns (dd: real)
      modifies this
      ensures GaugeNow() == Marked(old(GaugeNow()), Nav(old(BookNow()), prices)) && BookNow() == old(BookNow())
      ensures dd == CurrentDrawdown() && flatSince == old(flatSince)
      ensures hoursInMarket == old(hoursInMarket) + if Risky(old(BookNow()), prices) > 0.000000001 then 1 else 0
    {
      var n := NavAt(prices);
      navHistory := navHistory + [n];
      if n > hwm {
        hwm := n;
      }
      dd := if hwm <= 0.0 then 0.0 else Units(hwm - n, hwm) * 100.0;
      drawdownHistory := drawdownHistory + [dd];
      if RiskyValue(prices) > 0.000000001 {
        hoursInMarket := hoursInMarket + 1;
      }
    }

    method Rebaseline(prices: Prices)
      modifies this
      ensures GaugeNow() == Rebased(old(GaugeNow()), Nav(old(BookNow()), prices)) && BookNow() == old(BookNow())
      ensures flatSince == None && hoursInMarket == old(hoursInMarket)
    {
      hwm := NavAt(prices);
      if drawdownHistory != [] {
        drawdownHistory := drawdownHistory[|drawdownHistory| - 1 := 0.0];
      }
      flatSince := None;
    }

    /** Returns what left the cash. */
    method Buy(a: Token, usd: real, px: real, hour: int, c: Costs) returns (spent: real)
      requires Valid()
      modifies this
      ensures Valid() && BookNow() == Bought(old(BookNow()), a, usd, px, hour, c)
      ensures spent == old(cash) - cash && (spent > 0.0 <==> BuyFills(old(BookNow()), usd, px, c))
      ensures GaugeNow() == old(GaugeNow()) && flatSince == old(flatSince) && hoursInMarket == old(hoursInMarket)
    {
      ghost var before := BookNow();
      BuyKeepsSound(before, a, usd, px, hour, c);
      var fills, spend, fee := PriceBuy(usd, px, c);
      if !fills {
        return 0.0;
      }
      FillUpPositive(px, c);
      BuyUnitsPositive(before, usd, px, c);
      TakeUnits(a, Units(spend, FillUp(px, c)), FillUp(px, c), hour);
      cash := cash - (spend + fee);
      tradeCount := tradeCount + 1;
      spent := spend + fee;
    }

    /** The part of buy that settles amount and fee: the notional, cut back when the fee would not fit. */
    method PriceBuy(usd: real, px: real, c: Costs) returns (fills: bool, spend: real, fee: real)
      ensures fills == BuyFills(BookNow(), usd, px, c)
      ensures fills ==> spend == Spend(BookNow(), usd, c) > 0.0 && fee == BuyFee(BookNow(), usd, c) >= 0.0
    {
      var gross := Min(usd, cash);
      if px <= 0.0 || usd <= 0.0 || gross <= 0.0 {
        return false, 0.0, 0.0;
      }
      UsdNonNegative(gross, Rate(c.feeBps));
      fee := Usd(gross, Rate(c.feeBps));
      spend := gross;
      if spend + fee > cash {
        spend := Max(0.0, cash - fee);
        if spend <= 0.0 {
          return false, 0.0, 0.0;
        }
      }
      fills := true;
    }

    /** The part of buy that enters the units. */
    method TakeUnits(a: Token, units: real, fill: real, hour: int)
      requires Keyed(BookNow()) && units > 0.0
      modifies this`order, this`positions, this`entryPrice, this`entryHour
      ensures BookNow() == Added(old(BookNow()), a, units, fill, hour)
    {
      var was := if a in positions then positions[a] else 0.0;
      if was > 0.0 {
        entryPrice := entryPrice[a := Units(Usd(entryPrice[a], was) + Usd(fill, units), was + units)];
      } else {
        entryPrice := entryPrice[a := fill];
        entryHour := entryHour[a := hour];
      }
      order := if a in positions then order else order + [a];
      positions := positions[a := was + units];
    }

    /** Returns what came into the cash. */
    method Sell(a: Token, fraction: real, px: real, c: Costs) returns (proceeds: real)
      requires Valid()
      modifies this
      ensures Valid() && BookNow() == Sold(old(BookNow()), a, fraction, px, c)
      ensures proceeds == cash - old(cash)
      ensures GaugeNow() == old(GaugeNow()) && flatSince == old(flatSince) && hoursInMarket == old(hoursInMarket)
    {
      ghost var before := BookNow();
      SellKeepsSound(before, a, fraction, px, c);
      var qty := if a in positions then positions[a] else 0.0;
      if qty <= 0.0 || px <= 0.0 || fraction <= 0.0 {
        return 0.0;
      }
      var units := Usd(qty, Min(1.0, fraction));
      var gross := Usd(units, FillDown(px, c));
      var fee := Usd(gross, Rate(c.feeBps));
      proceeds := gross - fee;
      GiveUnits(a, units);
      cash := cash + proceeds;
      tradeCount := tradeCount + 1;
    }

    /** The part of sell that takes the units off. */
    method GiveUnits(a: Token, units: real)
      requires a in positions
      modifies this`order, this`positions, this`entryPrice, this`entryHour
      ensures BookNow() == Reduced(old(BookNow()), a, units)
    {
      positions := positions[a := positions[a] - units];
      if positions[a] <= DUST {
        order, positions := Dropped(order, a), positions - {a};
        entryPrice, entryHour := entryPrice - {a}, entryHour - {a};
      }
    }

    /** Sells every position; a missing price would raise, so every position needs one. */
    method Flatten(prices: Prices, c: Costs) returns (fills: nat)
      requires Valid() && forall a :: a in positions ==> a in prices
      modifies this
      ensures Valid() && BookNow() == Flattened(old(BookNow()), prices, c)
      ensures fills == Fills(old(BookNow()), old(order), prices, c)
      ensures GaugeNow() == old(GaugeNow()) && flatSince == old(flatSince) && hoursInMarket == old(hoursInMarket)
    {
      ghost var before := BookNow();
      var assets := order;
      fills := 0;
      var i := 0;
      while i < |assets|
        invariant 0 <= i <= |assets| && fills == Fills(before, assets[..i], prices, c)
        invariant Valid() && BookNow() == SoldAll(before, assets[..i], prices, c)
        invariant GaugeNow() == old(GaugeNow()) && flatSince == old(flatSince) && hoursInMarket == old(hoursInMarket)
      {
        OneMoreSale(before, assets, i, prices, c);
        assert assets[i] in before.order;
        var got := Sell(assets[i], 1.0, prices[assets[i]], c);
        if got > 0.0 {
          fills := fills + 1;
        }
        i := i + 1;
      }
      assert assets[..i] == assets;
    }
  }

  // ------------------------------------------------------------ what the drawdown history shows

  datatype Event = Marks(nav: real) | Rebases(nav: real)

  function After(g: Gauge, e: Event): Gauge {
    match e
    case Marks(nav) => Marked(g, nav)
    case Rebases(nav) => Rebased(g, nav)
  }

  function Run(start: real, es: seq<Event>): Gauge {
    if es == [] then Gauge(start, [], []) else After(Run(start, es[..|es| - 1]), es[|es| - 1])
  }

  /** The starting cash or the highest value marked so far, whichever is more. */
  function PeakOf(start: real, navs: seq<real>): real {
    if navs == [] then start else Max(PeakOf(start, navs[..|navs| - 1]), navs[|navs| - 1])
  }

  /** The true fall at each mark. */
  function TrueFall(start: real, navs: seq<real>, t: nat): real
    requires t < |navs|
  {
    Fall(PeakOf(start, navs[..t + 1]), navs[t])
  }

  /** The drawdown history is the true fall at every mark, and the mark is the true peak. */
  ghost predicate Exact(start: real, g: Gauge) {
    && |g.drawdowns| == |g.navs| && g.hwm == PeakOf(start, g.navs)
    && forall t :: 0 <= t < |g.navs| ==> g.drawdowns[t] == TrueFall(start, g.navs, t)
  }

  /** The drawdown history never overstates the fall. */
  ghost predicate Understating(start: real, g: Gauge) {
    && |g.drawdowns| == |g.navs| && g.hwm <= PeakOf(start, g.navs)
    && forall t :: 0 <= t < |g.navs| ==> g.drawdowns[t] <= TrueFall(start, g.navs, t)
  }

  lemma {:induction false} PeakIsUpperBound(start: real, navs: seq<real>)
    ensures start <= PeakOf(start, navs) && forall t :: 0 <= t < |navs| ==> navs[t] <= PeakOf(start, navs)
  {
    if navs != [] {
      var n := |navs| - 1;
      PeakIsUpperBound(start, navs[..n]);
      assert forall t :: 0 <= t < n ==> navs[t] == navs[..n][t];
    }
  }

  /** A higher peak shows a deeper fall. */
  lemma FallGrowsWithPeak(low: real, high: real, nav: real)
    requires low <= high && nav >= 0.0 && nav <= high
    ensures Fall(low, nav) <= Fall(high, nav) && 0.0 <= Fall(high, nav)
  {
    if high > 0.0 {
      DivideBack(high - nav, high);
      QuotientNonNegative(high - nav, high);
      if low > 0.0 {
        FallOrdered(low, high, nav);
      }
    }
  }

  lemma FallOrdered(low: real, high: real, nav: real)
    requires 0.0 < low <= high && nav >= 0.0
    ensures Units(low - nav, low) <= Units(high - nav, high)
  {
    SplitQuotient(low, nav);
    SplitQuotient(high, nav);
    var q := Units(nav, high);
    DivideBack(nav, high);
    QuotientNonNegative(nav, high);
    ProductOrdered(low, high, q);
    DivideBack(nav, low);
    Distribute(Units(nav, low), q, low);
    PositiveFactor(Units(nav, low) - q, low);
  }

  lemma PositiveFactor(x: real, y: real)
    requires y > 0.0 && x * y >= 0.0
    ensures x >= 0.0
  {
  }

  lemma SplitQuotient(peak: real, nav: real)
    requires peak > 0.0
    ensures Units(peak - nav, peak) == 1.0 - Units(nav, peak)
  {
    var x, y := Units(peak - nav, peak), Units(nav, peak);
    DivideBack(peak - nav, peak);
    DivideBack(nav, peak);
    Distribute(1.0, y, peak);
    Distribute(x, 1.0 - y, peak);
    PositiveFactor(x - (1.0 - y), peak);
    Distribute(1.0 - y, x, peak);
    PositiveFactor(1.0 - y - x, peak);
  }

  lemma TrueFallsExtend(start: real, navs: seq<real>, nav: real)
    ensures forall t :: 0 <= t < |navs| ==> TrueFall(start, navs + [nav], t) == TrueFall(start, navs, t)
    ensures TrueFall(start, navs + [nav], |navs|) == Fall(Max(PeakOf(start, navs), nav), nav)
    ensures PeakOf(start, navs + [nav]) == Max(PeakOf(start, navs), nav)
  {
    var all := navs + [nav];
    assert all[..|navs|] == navs && all[..|navs| + 1] == all;
    forall t | 0 <= t < |navs| ensures TrueFall(start, all, t) == TrueFall(start, navs, t) {
      assert all[..t + 1] == navs[..t + 1];
    }
  }

  /** Without rebaselining the drawdown history is exact. */
  lemma {:induction false} NeverRebasedIsExact(start: real, es: seq<Event>)
    requires forall i :: 0 <= i < |es| ==> es[i].Marks?
    ensures Exact(start, Run(start, es))
  {
    if es != [] {
      var g := Run(start, es[..|es| - 1]);
      NeverRebasedIsExact(start, es[..|es| - 1]);
      TrueFallsExtend(start, g.navs, es[|es| - 1].nav);
    }
  }

  /** Each rebaseline happens at a value no higher than the high-water mark then. */
  ghost predicate RebasesDown(start: real, es: seq<Event>) {
    forall i :: 0 <= i < |es| && es[i].Rebases? ==> es[i].nav <= Run(start, es[..i]).hwm
  }

  /** With rebaselining below the mark the history can only understate the fall. */
  lemma {:induction false} RebasedUnderstates(start: real, es: seq<Event>)
    requires RebasesDown(start, es) && forall i :: 0 <= i < |es| ==> es[i].nav >= 0.0
    ensures Understating(start, Run(start, es))
  {
    if es != [] {
      var n := |es| - 1;
      assert forall i :: 0 <= i < n ==> es[..n][..i] == es[..i];
      RebasedUnderstates(start, es[..n]);
      StepUnderstates(start, Run(start, es[..n]), es[n]);
    }
  }

  lemma StepUnderstates(start: real, g: Gauge, e: Event)
    requires Understating(start, g) && e.nav >= 0.0 && (e.Rebases? ==> e.nav <= g.hwm)
    ensures Understating(start, After(g, e))
  {
    if e.Marks? {
      TrueFallsExtend(start, g.navs, e.nav);
      FallGrowsWithPeak(Max(g.hwm, e.nav), Max(PeakOf(start, g.navs), e.nav), e.nav);
    } else if g.navs != [] {
      var t := |g.navs| - 1;
      assert g.navs[..t + 1] == g.navs;
      PeakIsUpperBound(start, g.navs);
      LastFallNonNegative(start, g.navs);
    }
  }

  lemma LastFallNonNegative(start: real, navs: seq<real>)
    requires navs != []
    ensures TrueFall(start, navs, |navs| - 1) >= 0.0
  {
    assert navs[..|navs| - 1 + 1] == navs;
    PeakIsUpperBound(start, navs);
    var peak, nav := PeakOf(start, navs), navs[|navs| - 1];
    if peak > 0.0 {
      QuotientNonNegative(peak - nav, peak);
    }
  }

  /** A rebaseline above the mark can make the history overstate the fall. */
  lemma RebasingUpOverstates()
    ensures !Understating(100.0, Run(100.0, [Rebases(200.0), Marks(100.0)]))
  {
    var es := [Rebases(200.0), Marks(100.0)];
    assert es[..1] == [Rebases(200.0)] && es[..1][..0] == [];
    var g := Run(100.0, es);
    assert Run(100.0, es[..1]) == Gauge(200.0, [], []);
    assert g == Gauge(200.0, [100.0], [Fall(200.0, 100.0)]);
    assert g.navs[..0] == [];
    assert PeakOf(100.0, g.navs) == 100.0;
  }
}
