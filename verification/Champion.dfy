// backtest/champion.py and the driving loop of backtest/run.py: the reference strategy over the account.
module Champion {
  import opened Types
  import opened Money
  import opened Account
  import opened Backtest
  import Ladder

  datatype CfgData = CfgData(universe: seq<Token>, lookbacks: seq<nat>, requireAgreement: bool, volEnterMax: real,
                             maxSingle: real, minSingle: real, maxRisky: real,
                             stopLossPct: real, takeProfitPct: real, maxHoldHours: int,
                             ladder: seq<LadderStep>,
                             microUsd: real, target: real, band: real, cadence: int)

  /** The strategy takes the largest and the last lookback, and a remainder by the cadence. */
  type Cfg = c: CfgData | c.lookbacks != [] && c.cadence > 0 witness DEFAULT

  const DEFAULT := CfgData(
    ["WBNB", "BTCB", "ETH", "CAKE"], [1, 4], true, 4.0,
    0.03, 0.01, 0.20, 3.0, 4.0, 48,
    [LadderStep(1.5, HalveSize), LadderStep(3.0, NoNewRisk), LadderStep(4.0, StablecoinMode)],
    12.0, 0.15, 0.05, 12)

  const SWAP: Costs := CostData(25.0, 30.0)

  const FLAT_COOLDOWN_H := 24

  /** One hour: prices, price histories, and the realised volatility of each asset. */
  datatype Market = Market(hour: int, prices: Prices, history: map<Token, seq<real>>, vol: Token -> real)

  datatype Intent = Buy(asset: Token, usd: real) | Sell(asset: Token, fraction: real) | Flatten | Stay

  /** The account, its gauge, and since when it has been flat. */
  datatype Desk = Desk(book: Book, gauge: Gauge, flatSince: Option<int>)

  function Drawdown(g: Gauge): real { if g.drawdowns == [] then 0.0 else g.drawdowns[|g.drawdowns| - 1] }

  function Ratio(b: Book, prices: Prices): real {
    if Nav(b, prices) <= 0.0 then 0.0 else Units(Risky(b, prices), Nav(b, prices))
  }

  predicate Flat(b: Book, prices: Prices) { Risky(b, prices) <= 0.000000001 }

  // ------------------------------------------------------------ signals

  function History(m: Market, a: Token): seq<real> { if a in m.history then m.history[a] else [] }

  /** _momentum */
  function Momentum(hist: seq<real>, lookback: nat): real {
    if |hist| < lookback + 1 then 0.0
    else
      var past := hist[|hist| - (lookback + 1)];
      if past <= 0.0 then 0.0 else Units(hist[|hist| - 1], past) - 1.0
  }

  function Longest(lookbacks: seq<nat>): nat {
    if lookbacks == [] then 0
    else
      var most := Longest(lookbacks[..|lookbacks| - 1]);
      if lookbacks[|lookbacks| - 1] > most then lookbacks[|lookbacks| - 1] else most
  }

  function Last(cfg: Cfg): nat { cfg.lookbacks[|cfg.lookbacks| - 1] }

  function Score(m: Market, cfg: Cfg, a: Token): real { Momentum(History(m, a), Last(cfg)) }

  predicate Candidate(m: Market, cfg: Cfg, a: Token) {
    && |History(m, a)| >= Longest(cfg.lookbacks) + 1
    && (cfg.requireAgreement ==>
          forall i :: 0 <= i < |cfg.lookbacks| ==> Momentum(History(m, a), cfg.lookbacks[i]) > 0.0)
    && m.vol(a) <= cfg.volEnterMax
  }

  /** Volatility-scaled share of the account, clamped, and halved on the first rung. */
  function SizePct(m: Market, cfg: Cfg, rung: Rung, a: Token): real {
    var raw := if m.vol(a) > 0.0 then Usd(cfg.maxSingle, Units(2.0, m.vol(a))) else cfg.maxSingle;
    var clamped := Max(cfg.minSingle, Min(cfg.maxSingle, raw));
    if rung == HalveSize then clamped * 0.5 else clamped
  }

  /** The first of the best-scoring assets that satisfy a condition. */
  function Best(assets: seq<Token>, ok: Token -> bool, score: Token -> real): Option<Token> {
    if assets == [] then None
    else
      var n := |assets| - 1;
      var best := Best(assets[..n], ok, score);
      if ok(assets[n]) && (best.None? || score(assets[n]) > score(best.value)) then Some(assets[n]) else best
  }

  // ------------------------------------------------------------ one decision

  /** After a full flat cooldown the mark is re-anchored; any risk resets the clock. */
  function Rearmed(d: Desk, m: Market): Desk {
    if Flat(d.book, m.prices) then
      if d.flatSince.None? then d.(flatSince := Some(m.hour))
      else if m.hour - d.flatSince.value >= FLAT_COOLDOWN_H && Drawdown(d.gauge) > 0.5 then
        d.(gauge := Rebased(d.gauge, Nav(d.book, m.prices)), flatSince := None)
      else d
    else d.(flatSince := None)
  }

  function Entry(b: Book, a: Token): real { if a in b.entry then b.entry[a] else 0.0 }

  predicate MustExit(b: Book, m: Market, cfg: Cfg, a: Token) {
    && Qty(b, a) > 0.0
    && (|| PriceOrZero(m.prices, a) <= Usd(Entry(b, a), 1.0 - cfg.stopLossPct / 100.0)
        || PriceOrZero(m.prices, a) >= Usd(Entry(b, a), 1.0 + cfg.takeProfitPct / 100.0)
        || m.hour - (if a in b.hour then b.hour[a] else m.hour) >= cfg.maxHoldHours)
  }

  function FirstExit(b: Book, m: Market, cfg: Cfg, assets: seq<Token>): Option<Token> {
    if assets == [] then None
    else if MustExit(b, m, cfg, assets[0]) then Some(assets[0])
    else FirstExit(b, m, cfg, assets[1..])
  }

  function Candidates(m: Market, cfg: Cfg): Token -> bool { a => Candidate(m, cfg, a) }

  function Scored(m: Market, cfg: Cfg): Token -> bool { a => |History(m, a)| > Last(cfg) }

  function Scores(m: Market, cfg: Cfg): Token -> real { a => Score(m, cfg, a) }

  function EntryBuy(b: Book, m: Market, cfg: Cfg, rung: Rung): Option<Intent> {
    var best := Best(cfg.universe, Candidates(m, cfg), Scores(m, cfg));
    if Ratio(b, m.prices) < cfg.maxRisky && best.Some? then
      var usd := Usd(SizePct(m, cfg, rung, best.value), Nav(b, m.prices));
      if usd > 0.0 && b.cash >= usd then Some(Intent.Buy(best.value, usd)) else None
    else None
  }

  function MicroBuy(b: Book, m: Market, cfg: Cfg, rung: Rung): Option<Intent> {
    var pick := Best(cfg.universe, Scored(m, cfg), Scores(m, cfg));
    if && rung == Full && m.hour % cfg.cadence == 0 && m.hour > 0
       && Ratio(b, m.prices) < cfg.target - cfg.band && b.cash >= cfg.microUsd && pick.Some?
    then Some(Intent.Buy(pick.value, cfg.microUsd))
    else None
  }

  function Choose(b: Book, m: Market, cfg: Cfg, rung: Rung): Intent {
    if rung == StablecoinMode then if Flat(b, m.prices) then Stay else Flatten
    else
      var exit := FirstExit(b, m, cfg, cfg.universe);
      if exit.Some? then Intent.Sell(exit.value, 1.0)
      else if rung == NoNewRisk then Stay
      else if EntryBuy(b, m, cfg, rung).Some? then EntryBuy(b, m, cfg, rung).value
      else if MicroBuy(b, m, cfg, rung).Some? then MicroBuy(b, m, cfg, rung).value
      else Stay
  }

  function RungOf(d: Desk, cfg: Cfg): Rung { Ladder.LastReached(cfg.ladder, Drawdown(d.gauge)) }

  /** decide: what it intends, after it may have re-armed the desk. */
  function Decided(d: Desk, m: Market, cfg: Cfg): Intent {
    Choose(d.book, m, cfg, RungOf(Rearmed(d, m), cfg))
  }

  // ------------------------------------------------------------ executing and running

  function Executed(b: Book, it: Intent, m: Market): Book
    requires Keyed(b)
  {
    match it
    case Buy(a, usd) => Bought(b, a, usd, PriceOrZero(m.prices, a), m.hour, SWAP)
    case Sell(a, fraction) => Sold(b, a, fraction, PriceOrZero(m.prices, a), SWAP)
    case Flatten => Flattened(b, m.prices, SWAP)
    case Stay => b
  }

  /** Whether _execute reports a trade. */
  function Trades(b: Book, it: Intent, m: Market): bool {
    match it
    case Buy(a, usd) => BuyFills(b, usd, PriceOrZero(m.prices, a), SWAP)
    case Sell(a, fraction) =>
      SellFills(b, a, fraction, PriceOrZero(m.prices, a))
      && Proceeds(SellUnits(b, a, fraction), PriceOrZero(m.prices, a), SWAP) > 0.0
    case Flatten => Fills(b, b.order, m.prices, SWAP) > 0
    case Stay => false
  }

  lemma ExecutedKeepsSound(b: Book, it: Intent, m: Market)
    requires Sound(b)
    ensures Sound(Executed(b, it, m))
  {
    match it
    case Buy(a, usd) => BuyKeepsSound(b, a, usd, PriceOrZero(m.prices, a), m.hour, SWAP);
    case Sell(a, fraction) => SellKeepsSound(b, a, fraction, PriceOrZero(m.prices, a), SWAP);
    case Flatten => SellAllKeepsSound(b, b.order, m.prices, SWAP);
    case Stay =>
  }

  /** One decision and its execution. */
  function Acted(d: Desk, m: Market, cfg: Cfg): (t: Desk)
    requires Keyed(d.book)
  {
    Rearmed(d, m).(book := Executed(d.book, Decided(d, m, cfg), m))
  }

  /** Deciding and trading until nothing trades, at most n times. */
  ghost function Traded(d: Desk, m: Market, cfg: Cfg, n: nat): (t: Desk)
    requires Sound(d.book)
    ensures Sound(t.book)
    decreases n
  {
    if n == 0 then d
    else
      var it := Decided(d, m, cfg);
      ExecutedKeepsSound(d.book, it, m);
      if Trades(d.book, it, m) then Traded(Acted(d, m, cfg), m, cfg, n - 1) else Acted(d, m, cfg)
  }

  const MAX_TRADES_PER_HOUR := 4

  ghost function HourRun(d: Desk, m: Market, cfg: Cfg): (t: Desk)
    requires Sound(d.book)
    ensures Sound(t.book)
  {
    var t := Traded(d, m, cfg, MAX_TRADES_PER_HOUR);
    t.(gauge := Marked(t.gauge, Nav(t.book, m.prices)))
  }

  ghost function Run(d: Desk, ms: seq<Market>, cfg: Cfg): (t: Desk)
    requires Sound(d.book)
    ensures Sound(t.book)
  {
    if ms == [] then d else HourRun(Run(d, ms[..|ms| - 1], cfg), ms[|ms| - 1], cfg)
  }

  // ------------------------------------------------------------ the strategy over the mutable portfolio

  ghost function DeskOf(p: Portfolio): Desk
    reads p
  {
    Desk(p.BookNow(), p.GaugeNow(), p.flatSince)
  }

  method SearchExit(p: Portfolio, m: Market, cfg: Cfg) returns (exit: Option<Token>)
    ensures exit == FirstExit(p.BookNow(), m, cfg, cfg.universe)
  {
    var i := 0;
    while i < |cfg.universe|
      invariant 0 <= i <= |cfg.universe|
      invariant FirstExit(p.BookNow(), m, cfg, cfg.universe) == FirstExit(p.BookNow(), m, cfg, cfg.universe[i..])
    {
      var a := cfg.universe[i];
      var qty := if a in p.positions then p.positions[a] else 0.0;
      if qty > 0.0 {
        var entry := if a in p.entryPrice then p.entryPrice[a] else 0.0;
        var since := if a in p.entryHour then p.entryHour[a] else m.hour;
        var px := PriceOrZero(m.prices, a);
        if px <= Usd(entry, 1.0 - cfg.stopLossPct / 100.0) || px >= Usd(entry, 1.0 + cfg.takeProfitPct / 100.0)
           || m.hour - since >= cfg.maxHoldHours
        {
          return Some(a);
        }
      }
      assert cfg.universe[i..][1..] == cfg.universe[i + 1..];
      i := i + 1;
    }
    exit := None;
  }

  /** The first of the best-scoring assets, kept while the list is walked. */
  method SearchBest(assets: seq<Token>, ok: Token -> bool, score: Token -> real) returns (best: Option<Token>)
    ensures best == Best(assets, ok, score)
  {
    best := None;
    var bestScore := 0.0;
    for i := 0 to |assets|
      invariant best == Best(assets[..i], ok, score)
      invariant best.Some? ==> bestScore == score(best.value)
    {
      assert assets[..i + 1][..i] == assets[..i];
      if ok(assets[i]) && (best.None? || score(assets[i]) > bestScore) {
        best, bestScore := Some(assets[i]), score(assets[i]);
      }
    }
    assert assets[..|assets|] == assets;
  }

  /** decide */
  method Decide(p: Portfolio, m: Market, cfg: Cfg) returns (it: Intent)
    requires p.Valid()
    modifies p
    ensures p.Valid() && DeskOf(p) == Rearmed(old(DeskOf(p)), m)
    ensures it == Decided(old(DeskOf(p)), m, cfg)
  {
    var dd := p.CurrentDrawdown();
    var nav := p.NavAt(m.prices);
    ghost var b := p.BookNow();
    if p.RiskyValue(m.prices) <= 0.000000001 {
      if p.flatSince.None? {
        p.flatSince := Some(m.hour);
      } else if m.hour - p.flatSince.value >= FLAT_COOLDOWN_H && dd > 0.5 {
        p.Rebaseline(m.prices);
        dd := p.CurrentDrawdown();
      }
    } else {
      p.flatSince := None;
    }
    assert DeskOf(p) == Rearmed(old(DeskOf(p)), m);
    var rung := Ladder.WalkSteps(cfg.ladder, dd);
    it := Pick(p, m, cfg, rung, nav);
  }

  /** The cascade of decide below the cooldown. */
  method Pick(p: Portfolio, m: Market, cfg: Cfg, rung: Rung, nav: real) returns (it: Intent)
    requires nav == Nav(p.BookNow(), m.prices)
    ensures it == Choose(p.BookNow(), m, cfg, rung)
  {
    if rung == StablecoinMode {
      if p.RiskyValue(m.prices) > 0.000000001 {
        return Flatten;
      }
      return Stay;
    }
    var exit := SearchExit(p, m, cfg);
    if exit.Some? {
      return Intent.Sell(exit.value, 1.0);
    }
    if rung == NoNewRisk {
      return Stay;
    }
    if p.RiskyRatio(m.prices) < cfg.maxRisky {
      var best := SearchBest(cfg.universe, Candidates(m, cfg), Scores(m, cfg));
      if best.Some? {
        var usd := Usd(SizePct(m, cfg, rung, best.value), nav);
        if usd > 0.0 && p.cash >= usd {
          return Intent.Buy(best.value, usd);
        }
      }
    }
    if rung == Full && m.hour % cfg.cadence == 0 && m.hour > 0
       && p.RiskyRatio(m.prices) < cfg.target - cfg.band && p.cash >= cfg.microUsd
    {
      var pick := SearchBest(cfg.universe, Scored(m, cfg), Scores(m, cfg));
      if pick.Some? {
        return Intent.Buy(pick.value, cfg.microUsd);
      }
    }
    it := Stay;
  }

  /** _execute: every asset has a price in the hour's table. */
  method Execute(p: Portfolio, it: Intent, m: Market) returns (executed: bool)
    requires p.Valid() && forall a :: a in p.positions ==> a in m.prices
    modifies p
    ensures p.Valid() && DeskOf(p) == old(DeskOf(p)).(book := Executed(old(p.BookNow()), it, m))
    ensures executed == Trades(old(p.BookNow()), it, m)
  {
    match it
    case Buy(a, usd) =>
      var spent := p.Buy(a, usd, PriceOrZero(m.prices, a), m.hour, SWAP);
      executed := spent > 0.0;
    case Sell(a, fraction) =>
      var proceeds := p.Sell(a, fraction, PriceOrZero(m.prices, a), SWAP);
      executed := proceeds > 0.0;
    case Flatten =>
      var fills := p.Flatten(m.prices, SWAP);
      executed := fills > 0;
    case Stay =>
      executed := false;
  }

  // ------------------------------------------------------------ only the universe is traded

  ghost predicate InUniverse(b: Book, cfg: Cfg) { forall a :: a in b.qty ==> a in cfg.universe }

  /**
   * The pick is a listed asset that qualifies, none that qualifies scores higher, and there is one if any qualifies.
   */
  lemma {:induction false} BestIsBest(assets: seq<Token>, ok: Token -> bool, score: Token -> real)
    ensures var best := Best(assets, ok, score);
            && (best.None? <==> forall a :: a in assets ==> !ok(a))
            && (best.Some? ==> best.value in assets && ok(best.value))
            && (best.Some? ==> forall a :: a in assets && ok(a) ==> score(a) <= score(best.value))
  {
    if assets != [] {
      var n := |assets| - 1;
      BestIsBest(assets[..n], ok, score);
      assert forall a :: a in assets <==> a in assets[..n] || a == assets[n];
    }
  }

  lemma {:induction false} FirstExitIsDue(b: Book, m: Market, cfg: Cfg, assets: seq<Token>)
    ensures var exit := FirstExit(b, m, cfg, assets);
            && (exit.None? <==> forall a :: a in assets ==> !MustExit(b, m, cfg, a))
            && (exit.Some? ==> exit.value in assets && MustExit(b, m, cfg, exit.value))
  {
    if assets != [] {
      FirstExitIsDue(b, m, cfg, assets[1..]);
    }
  }

  /** Nothing is bought while a position of the universe has to go. */
  lemma ExitsComeFirst(b: Book, m: Market, cfg: Cfg, rung: Rung)
    requires Choose(b, m, cfg, rung).Buy?
    ensures forall a :: a in cfg.universe ==> !MustExit(b, m, cfg, a)
  {
    FirstExitIsDue(b, m, cfg, cfg.universe);
  }

  lemma BuysInUniverse(b: Book, m: Market, cfg: Cfg, rung: Rung)
    ensures Choose(b, m, cfg, rung).Buy? ==> Choose(b, m, cfg, rung).asset in cfg.universe
  {
    BestIsBest(cfg.universe, Candidates(m, cfg), Scores(m, cfg));
    BestIsBest(cfg.universe, Scored(m, cfg), Scores(m, cfg));
  }

  lemma ActedInUniverse(d: Desk, m: Market, cfg: Cfg)
    requires Sound(d.book) && InUniverse(d.book, cfg)
    ensures InUniverse(Acted(d, m, cfg).book, cfg)
  {
    BuysInUniverse(d.book, m, cfg, RungOf(Rearmed(d, m), cfg));
    if Decided(d, m, cfg).Flatten? {
      FlattenSells(d.book, m.prices, SWAP);
    }
  }

  ghost predicate Priced(m: Market, cfg: Cfg) { forall a :: a in cfg.universe ==> a in m.prices }

  /** One hour of _run_strategy: decide and trade until nothing trades, then mark. */
  method RunHour(p: Portfolio, m: Market, cfg: Cfg)
    requires p.Valid() && InUniverse(p.BookNow(), cfg) && Priced(m, cfg)
    modifies p
    ensures p.Valid() && InUniverse(p.BookNow(), cfg) && DeskOf(p) == HourRun(old(DeskOf(p)), m, cfg)
  {
    ghost var whole := Traded(DeskOf(p), m, cfg, MAX_TRADES_PER_HOUR);
    var k := 0;
    while k < MAX_TRADES_PER_HOUR
      invariant 0 <= k <= MAX_TRADES_PER_HOUR
      invariant p.Valid() && InUniverse(p.BookNow(), cfg)
      invariant whole == Traded(DeskOf(p), m, cfg, MAX_TRADES_PER_HOUR - k)
    {
      ghost var d := DeskOf(p);
      ActedInUniverse(d, m, cfg);
      var it := Decide(p, m, cfg);
      if it == Stay {
        assert DeskOf(p) == whole;
        break;
      }
      var executed := Execute(p, it, m);
      assert DeskOf(p) == Acted(d, m, cfg);
      if !executed {
        assert DeskOf(p) == whole;
        break;
      }
      k := k + 1;
    }
    assert DeskOf(p) == whole;
    var dd := p.Mark(m.prices);
  }

  /** _run_strategy */
  method RunStrategy(p: Portfolio, ms: seq<Market>, cfg: Cfg)
    requires p.Valid() && InUniverse(p.BookNow(), cfg) && forall i :: 0 <= i < |ms| ==> Priced(ms[i], cfg)
    modifies p
    ensures p.Valid() && DeskOf(p) == Run(old(DeskOf(p)), ms, cfg)
  {
    for i := 0 to |ms|
      invariant p.Valid() && InUniverse(p.BookNow(), cfg)
      invariant DeskOf(p) == Run(old(DeskOf(p)), ms[..i], cfg)
    {
      assert ms[..i + 1][..i] == ms[..i];
      RunHour(p, ms[i], cfg);
    }
    assert ms[..|ms|] == ms;
  }

  // ------------------------------------------------------------ the exposure bound

  /** What decide knows when it proposes a buy under the default parameters. */
  ghost predicate Bounded(b: Book, prices: Prices, usd: real) {
    var nav := Nav(b, prices);
    && usd <= b.cash
    && (|| (Ratio(b, prices) < 0.20 && usd <= Usd(0.03, nav))
        || (Ratio(b, prices) < 0.10 && usd <= 12.0))
  }

  lemma EntryIsBounded(b: Book, m: Market, rung: Rung)
    requires EntryBuy(b, m, DEFAULT, rung).Some?
    ensures var it := EntryBuy(b, m, DEFAULT, rung).value;
            it.Buy? && (Nav(b, m.prices) > 0.0 ==> Bounded(b, m.prices, it.usd))
  {
    var it := EntryBuy(b, m, DEFAULT, rung).value;
    if Nav(b, m.prices) > 0.0 {
      UsdOrdered(SizePct(m, DEFAULT, rung, it.asset), 0.03, Nav(b, m.prices));
    }
  }

  /** Every buy decide proposes is within those bounds. */
  lemma BuysAreBounded(b: Book, m: Market, rung: Rung)
    requires Choose(b, m, DEFAULT, rung).Buy? && Nav(b, m.prices) > 0.0
    ensures Bounded(b, m.prices, Choose(b, m, DEFAULT, rung).usd)
  {
    if EntryBuy(b, m, DEFAULT, rung).Some? {
      EntryIsBounded(b, m, rung);
    } else {
    }
  }

  /** A risky share below c is a risky value below c times the account's value. */
  lemma RatioBelow(b: Book, prices: Prices, c: real)
    requires Nav(b, prices) > 0.0 && Ratio(b, prices) < c
    ensures Risky(b, prices) <= Usd(c, Nav(b, prices))
  {
    UsdOfUnits(Risky(b, prices), Nav(b, prices));
    UsdOrdered(Ratio(b, prices), c, Nav(b, prices));
  }

  lemma RatioBelowIf(b: Book, prices: Prices, c: real)
    requires Nav(b, prices) > 0.0 && Risky(b, prices) < Usd(c, Nav(b, prices))
    ensures Ratio(b, prices) < c
  {
    UsdOfUnits(Risky(b, prices), Nav(b, prices));
    if Ratio(b, prices) >= c {
      UsdOrdered(c, Ratio(b, prices), Nav(b, prices));
    }
  }

  /**
   * What a buy at the default costs adds: the bought value times 1.003 is the spend, and the cost is at most 55 bps.
   */
  lemma DefaultBuyMoves(b: Book, a: Token, usd: real, px: real, hour: int, prices: Prices)
    requires Sound(b) && a in prices && prices[a] == px && BuyFills(b, usd, px, SWAP)
    ensures var t := Bought(b, a, usd, px, hour, SWAP);
            var v := Risky(t, prices) - Risky(b, prices);
            && v * 1.003 <= usd
            && Nav(t, prices) >= Nav(b, prices) - usd * 0.0055
  {
    var spend := Spend(b, usd, SWAP);
    BuyMovesValue(b, a, usd, px, hour, SWAP, prices);
    BoughtValue(spend, px, SWAP);
    DefaultFill(spend, px);
    BuyCost(b, a, usd, px, hour, SWAP, prices);
  }

  lemma DefaultFill(spend: real, px: real)
    requires px > 0.0
    ensures FillUp(px, SWAP) > 0.0
    ensures Usd(Units(spend, FillUp(px, SWAP)), px) * 1.003 == spend
  {
    FillUpPositive(px, SWAP);
    var q := Units(spend, FillUp(px, SWAP));
    UsdOfUnits(spend, FillUp(px, SWAP));
    Associate(q, px, 1.0 + Rate(30.0));
  }

  /** No executed buy leaves the risky share at 23% or more, at the prices it was made at. */
  lemma BuyStaysUnder23(d: Desk, m: Market)
    requires Sound(d.book) && Nav(d.book, m.prices) >= 100.0
    requires Decided(d, m, DEFAULT).Buy? && Trades(d.book, Decided(d, m, DEFAULT), m)
    ensures Ratio(Acted(d, m, DEFAULT).book, m.prices) < 0.23
  {
    var it := Decided(d, m, DEFAULT);
    var b, t := d.book, Executed(d.book, it, m);
    BuysAreBounded(b, m, RungOf(Rearmed(d, m), DEFAULT));
    if Ratio(b, m.prices) < 0.10 {
      RatioBelow(b, m.prices, 0.10);
    }
    RatioBelow(b, m.prices, 0.20);
    DefaultBuyMoves(b, it.asset, it.usd, m.prices[it.asset], m.hour, m.prices);
    RatioBelowIf(t, m.prices, 0.23);
  }

  /** Buys are proposed only while the drawdown the ladder sees is under 3%, and from 1.5% on they are
      entries of at most 1.5% of the account. */
  lemma BuysOnlyAboveTheLadder(d: Desk, m: Market)
    requires Decided(d, m, DEFAULT).Buy? && Nav(d.book, m.prices) > 0.0
    ensures var dd := Drawdown(Rearmed(d, m).gauge);
            dd < 3.0 && (dd >= 1.5 ==> Decided(d, m, DEFAULT).usd <= Usd(0.015, Nav(d.book, m.prices)))
  {
    var rung := RungOf(Rearmed(d, m), DEFAULT);
    DefaultRung(Drawdown(Rearmed(d, m).gauge));
    if rung == HalveSize {
      assert MicroBuy(d.book, m, DEFAULT, rung).None?;
      var it := EntryBuy(d.book, m, DEFAULT, rung).value;
      UsdOrdered(SizePct(m, DEFAULT, rung, it.asset), 0.015, Nav(d.book, m.prices));
    }
  }

  lemma DefaultRung(dd: real)
    ensures Ladder.LastReached(DEFAULT.ladder, dd) ==
            if dd >= 4.0 then StablecoinMode else if dd >= 3.0 then NoNewRisk else if dd >= 1.5 then HalveSize else Full
  {
    Ladder.LastOfThree(LadderStep(1.5, HalveSize), LadderStep(3.0, NoNewRisk), LadderStep(4.0, StablecoinMode), dd);
  }

  /** Every buy executed from here within the hour that starts from at least 100 dollars stays under 23%. */
  ghost predicate HourUnder23(d: Desk, m: Market, n: nat)
    requires Sound(d.book)
    decreases n
  {
    n > 0 && Trades(d.book, Decided(d, m, DEFAULT), m) ==>
      && (Decided(d, m, DEFAULT).Buy? && Nav(d.book, m.prices) >= 100.0 ==>
            Ratio(Acted(d, m, DEFAULT).book, m.prices) < 0.23)
      && Sound(Acted(d, m, DEFAULT).book)
      && HourUnder23(Acted(d, m, DEFAULT), m, n - 1)
  }

  lemma {:induction false} EveryHourUnder23(d: Desk, m: Market, n: nat)
    requires Sound(d.book)
    ensures HourUnder23(d, m, n)
    decreases n
  {
    if n > 0 && Trades(d.book, Decided(d, m, DEFAULT), m) {
      ExecutedKeepsSound(d.book, Decided(d, m, DEFAULT), m);
      if Decided(d, m, DEFAULT).Buy? && Nav(d.book, m.prices) >= 100.0 {
        BuyStaysUnder23(d, m);
      }
      EveryHourUnder23(Acted(d, m, DEFAULT), m, n - 1);
    }
  }

  /** In every run, hour after hour, no executed buy leaves the risky share at 23% or more. */
  lemma RunStaysUnder23(d: Desk, ms: seq<Market>)
    requires Sound(d.book)
    ensures forall i :: 0 <= i < |ms| ==> HourUnder23(Run(d, ms[..i], DEFAULT), ms[i], MAX_TRADES_PER_HOUR)
  {
    forall i | 0 <= i < |ms| ensures HourUnder23(Run(d, ms[..i], DEFAULT), ms[i], MAX_TRADES_PER_HOUR) {
      EveryHourUnder23(Run(d, ms[..i], DEFAULT), ms[i], MAX_TRADES_PER_HOUR);
    }
  }

  // ------------------------------------------------------------ the drawdown the ladder sees is never too deep

  /** The gauge's mark is at least its last value, and its last drawdown is the fall between them or was cleared. */
  ghost predicate Faithful(g: Gauge) {
    && |g.drawdowns| == |g.navs|
    && (g.navs != [] ==> var n := |g.navs| - 1;
          g.drawdowns[n] == 0.0 || (g.navs[n] <= g.hwm && g.drawdowns[n] == Fall(g.hwm, g.navs[n])))
  }

  /** Once a decision has been made, whatever is traded, re-anchoring is out of the question until the next mark. */
  lemma RearmingOnce(d: Desk, m: Market, b: Book)
    ensures var t := Rearmed(d, m).(book := b); Rearmed(t, m).gauge == t.gauge
  {
  }

  /** Within an hour only the first decision can re-anchor the mark. */
  lemma {:induction false} HourRebasesOnce(d: Desk, m: Market, cfg: Cfg, n: nat)
    requires Sound(d.book) && n > 0
    ensures Traded(d, m, cfg, n).gauge == Rearmed(d, m).gauge
    decreases n
  {
    var it := Decided(d, m, cfg);
    ExecutedKeepsSound(d.book, it, m);
    if n > 1 && Trades(d.book, it, m) {
      HourRebasesOnce(Acted(d, m, cfg), m, cfg, n - 1);
      RearmingOnce(d, m, Executed(d.book, it, m));
    }
  }

  /** Between hours: the last mark valued at least the cash that is still there. */
  ghost predicate Anchored(start: real, d: Desk) {
    && Sound(d.book) && Understating(start, d.gauge) && Faithful(d.gauge)
    && (d.gauge.navs != [] ==> d.book.cash <= d.gauge.navs[|d.gauge.navs| - 1])
  }

  ghost predicate NonNegative(prices: Prices) { forall a :: a in prices ==> prices[a] >= 0.0 }

  lemma {:induction false} SumNonNegative(keys: seq<Token>, f: Token -> real)
    requires forall k :: k in keys ==> f(k) >= 0.0
    ensures Sum(keys, f) >= 0.0
  {
    if keys != [] {
      SumNonNegative(keys[1..], f);
    }
  }

  lemma RiskyNonNegative(b: Book, prices: Prices)
    requires NonNegative(prices)
    ensures Risky(b, prices) >= 0.0
  {
    forall a | a in b.order ensures Held(b, prices, a) >= 0.0 {
      if Qty(b, a) > 0.0 {
        UsdNonNegative(Qty(b, a), PriceOrZero(prices, a));
      }
    }
    SumNonNegative(b.order, HeldBy(b, prices));
  }

  /** A drawdown above half a percent leaves room between the last value and the mark. */
  lemma RoomBelowMark(hwm: real, nav: real)
    requires nav >= 0.01 && nav <= hwm && Fall(hwm, nav) > 0.5
    ensures nav + 0.000000001 <= hwm
  {
    DivideBack(hwm - nav, hwm);
    ProductOrdered(0.005, Units(hwm - nav, hwm), hwm);
  }

  /** Re-anchoring in a run goes down: the book is flat and the account is more than half a percent below the mark. */
  lemma RearmingGoesDown(start: real, d: Desk, m: Market)
    requires Anchored(start, d) && NonNegative(m.prices)
    requires d.gauge.navs != [] ==> d.gauge.navs[|d.gauge.navs| - 1] >= 0.01
    ensures Understating(start, Rearmed(d, m).gauge)
  {
    if Rearmed(d, m).gauge != d.gauge {
      var g, nav := d.gauge, Nav(d.book, m.prices);
      RiskyNonNegative(d.book, m.prices);
      RoomBelowMark(g.hwm, g.navs[|g.navs| - 1]);
      StepUnderstates(start, g, Rebases(nav));
    }
  }

  lemma HourStaysAnchored(start: real, d: Desk, m: Market, cfg: Cfg)
    requires Anchored(start, d) && NonNegative(m.prices)
    requires d.gauge.navs != [] ==> d.gauge.navs[|d.gauge.navs| - 1] >= 0.01
    ensures Anchored(start, HourRun(d, m, cfg))
  {
    RearmingGoesDown(start, d, m);
    HourRebasesOnce(d, m, cfg, MAX_TRADES_PER_HOUR);
    var t := Traded(d, m, cfg, MAX_TRADES_PER_HOUR);
    var nav := Nav(t.book, m.prices);
    RiskyNonNegative(t.book, m.prices);
    StepUnderstates(start, t.gauge, Marks(nav));
  }

  /** In every run from a fresh account, the drawdown the ladder acts on is at most the true fall from the peak. */
  lemma {:induction false} LadderNeverOverstates(d: Desk, ms: seq<Market>, cfg: Cfg)
    requires Sound(d.book) && d.gauge == Gauge(d.book.cash, [], [])
    requires forall i :: 0 <= i < |ms| ==> NonNegative(ms[i].prices)
    requires forall t :: 0 <= t < |Run(d, ms, cfg).gauge.navs| ==> Run(d, ms, cfg).gauge.navs[t] >= 0.01
    ensures Anchored(d.book.cash, Run(d, ms, cfg))
  {
    if ms != [] {
      var n := |ms| - 1;
      var before := Run(d, ms[..n], cfg);
      NavsGrow(before, ms[n], cfg);
      assert forall t :: 0 <= t < |before.gauge.navs| ==> before.gauge.navs[t] == Run(d, ms, cfg).gauge.navs[t];
      LadderNeverOverstates(d, ms[..n], cfg);
      HourStaysAnchored(d.book.cash, before, ms[n], cfg);
    }
  }

  lemma NavsGrow(d: Desk, m: Market, cfg: Cfg)
    requires Sound(d.book)
    ensures exists nav :: HourRun(d, m, cfg).gauge.navs == d.gauge.navs + [nav]
  {
    HourRebasesOnce(d, m, cfg, MAX_TRADES_PER_HOUR);
    assert HourRun(d, m, cfg).gauge.navs
           == d.gauge.navs + [Nav(Traded(d, m, cfg, MAX_TRADES_PER_HOUR).book, m.prices)];
  }
}
