// agent/strategy/survival.py: regime and portfolio to exactly one intent, capital preservation first.
module Survival {
  import opened Types
  import opened Money
  import Ladder
  import Signals

  /** One entry of the positions dictionary, which keeps its insertion order. */
  datatype Holding = Holding(sym: Token, qty: real, entryPrice: real, entryTs: real)

  datatype PortfolioState = PortfolioState(nav: real, stable: real, positions: seq<Holding>, drawdownPct: real,
                                           exposure: real, tradesThisWeek: int, sinceLastTrade: real)

  datatype Action = Enter | Exit | Rebalance | Stay

  datatype Abstain = Binding | DrawdownProximity | ExposureFull | RegimeConflict | RateOrInterval

  datatype Intent = Intent(action: Action, chain: string, fromToken: Token, toToken: Token, amountUsd: real,
                           abstain: Abstain)

  function IndexOf(ps: seq<Holding>, sym: Token): (i: nat)
    ensures i <= |ps|
    ensures i < |ps| ==> ps[i].sym == sym
    ensures forall j :: 0 <= j < i ==> ps[j].sym != sym
  {
    if ps == [] then 0
    else if ps[0].sym == sym then 0
    else 1 + IndexOf(ps[1..], sym)
  }

  predicate Holds(ps: seq<Holding>, sym: Token) { IndexOf(ps, sym) < |ps| }

  /** Quantity held of a token; zero when the token is absent. */
  function Qty(ps: seq<Holding>, sym: Token): real {
    var i := IndexOf(ps, sym);
    if i < |ps| then ps[i].qty else 0.0
  }

  function VolScaledSize(nav: real, vol: Option<real>, cfg: Config, halve: bool): real {
    var lo := cfg.risk.minSinglePct;
    var hi := cfg.risk.maxSinglePct;
    var frac := if vol.None? then lo
                else lo + (hi - lo) * Max(0.0, Min(1.0, (cfg.volEnterMax - vol.value) / cfg.volEnterMax));
    Min((if halve then frac / 2.0 else frac) * nav, cfg.risk.maxSingleUsd)
  }

  /** Does this held position leave now? */
  predicate MustExit(h: Holding, px: real, rung: Rung, cfg: Config, now: real) {
    var pnl := if h.entryPrice != 0.0 then (px - h.entryPrice) / h.entryPrice * 100.0 else 0.0;
    || rung == StablecoinMode
    || pnl <= -cfg.risk.stopLossPct
    || pnl >= cfg.risk.takeProfitPct
    || (now - h.entryTs) / 3600.0 >= cfg.risk.maxHoldHours
  }

  predicate ExitDue(h: Holding, price: Prices, rung: Rung, cfg: Config, now: real) {
    h.sym in price && h.qty > 0.0 && MustExit(h, price[h.sym], rung, cfg, now)
  }

  function FirstExit(ps: seq<Holding>, price: Prices, rung: Rung, cfg: Config, now: real): (i: nat)
    ensures i <= |ps|
    ensures i < |ps| ==> ExitDue(ps[i], price, rung, cfg, now)
    ensures forall j :: 0 <= j < i ==> !ExitDue(ps[j], price, rung, cfg, now)
  {
    if ps == [] then 0
    else if ExitDue(ps[0], price, rung, cfg, now) then 0
    else 1 + FirstExit(ps[1..], price, rung, cfg, now)
  }

  /** Only counted, correctly priced tokens are ever bought. */
  predicate Buyable(sym: Token, cfg: Config) {
    sym in cfg.universe && (sym == "ETH" || sym == "CAKE")
  }

  function EntryViews(views: seq<TokenView>, cfg: Config): (r: seq<TokenView>)
    ensures forall v :: v in r ==> v in views && Buyable(v.symbol, cfg)
  {
    if views == [] then []
    else (if Buyable(views[0].symbol, cfg) then [views[0]] else []) + EntryViews(views[1..], cfg)
  }

  function EntrySize(v: TokenView, pf: PortfolioState, cfg: Config, rung: Rung, room: real): real {
    Min(VolScaledSize(pf.nav, v.vol24h, cfg, rung == HalveSize), Usd(room, pf.nav))
  }

  predicate Enterable(v: TokenView, pf: PortfolioState, cfg: Config, rung: Rung, room: real) {
    !Holds(pf.positions, v.symbol) && EntrySize(v, pf, cfg, rung, room) >= 1.0
  }

  function FirstEntry(ranked: seq<TokenView>, pf: PortfolioState, cfg: Config, rung: Rung, room: real): (i: nat)
    ensures i <= |ranked|
    ensures i < |ranked| ==> Enterable(ranked[i], pf, cfg, rung, room)
    ensures forall j :: 0 <= j < i ==> !Enterable(ranked[j], pf, cfg, rung, room)
  {
    if ranked == [] then 0
    else if Enterable(ranked[0], pf, cfg, rung, room) then 0
    else 1 + FirstEntry(ranked[1..], pf, cfg, rung, room)
  }

  function CalmKey(v: TokenView): real { if v.vol24h.Some? then v.vol24h.value else 1000000000.0 }

  /** Lowest-volatility view of a token not held, the earliest on a tie. */
  function Calmest(views: seq<TokenView>, ps: seq<Holding>): (r: Option<TokenView>)
    ensures r.Some? ==> r.value in views && !Holds(ps, r.value.symbol)
  {
    if views == [] then None
    else
      var n := |views| - 1;
      var v := views[n];
      var best := Calmest(views[..n], ps);
      if Holds(ps, v.symbol) then best
      else if best.Some? && CalmKey(best.value) <= CalmKey(v) then best
      else Some(v)
  }

  /** The calmest view is really the calmest of those not held, and there is one unless all are held. */
  lemma {:induction false} CalmestIsCalmest(views: seq<TokenView>, ps: seq<Holding>, v: TokenView)
    requires v in views && !Holds(ps, v.symbol)
    ensures Calmest(views, ps).Some? && CalmKey(Calmest(views, ps).value) <= CalmKey(v)
  {
    var n := |views| - 1;
    if v in views[..n] {
      CalmestIsCalmest(views[..n], ps, v);
    } else {
      assert v == views[n];
    }
  }

  function HeldValue(h: Holding, price: Prices): real { Usd(h.qty, PriceOrZero(price, h.sym)) }

  /** max(positions, key=value): the earliest holding of the greatest value. */
  function Largest(ps: seq<Holding>, price: Prices): (i: nat)
    requires ps != []
    ensures i < |ps|
    ensures forall j :: 0 <= j < |ps| ==> HeldValue(ps[j], price) <= HeldValue(ps[i], price)
  {
    var n := |ps| - 1;
    if n == 0 then 0
    else
      var best := Largest(ps[..n], price);
      if HeldValue(ps[n], price) > HeldValue(ps[best], price) then n else best
  }

  /** The eligible tokens, in code order, that have a positive price. */
  function Counted(cfg: Config, price: Prices): (r: seq<Token>)
    ensures forall t :: t in r ==> Buyable(t, cfg) && PriceOrZero(price, t) > 0.0
  {
    (if "ETH" in cfg.universe && PriceOrZero(price, "ETH") > 0.0 then ["ETH"] else [])
    + (if "CAKE" in cfg.universe && PriceOrZero(price, "CAKE") > 0.0 then ["CAKE"] else [])
  }

  predicate WorthTrimming(ps: seq<Holding>, price: Prices, t: Token) {
    Holds(ps, t) && Usd(Qty(ps, t), PriceOrZero(price, t)) >= 1.0
  }

  /** The minimum-trade floor: trim a counted token that is held, or else buy a sliver of one. */
  function FloorTrade(counted: seq<Token>, pf: PortfolioState, price: Prices, cfg: Config, chain: string): Intent
    requires counted != []
  {
    var micro := cfg.minTrades.microUsd;
    var quote := cfg.quotes[0];
    if WorthTrimming(pf.positions, price, counted[0]) then Trim(counted[0], pf, price, cfg, chain)
    else if |counted| > 1 && WorthTrimming(pf.positions, price, counted[1]) then Trim(counted[1], pf, price, cfg, chain)
    else Intent(Rebalance, chain, quote, counted[0], Cents(Min(micro, Max(1.5, 0.02 * pf.nav))), Binding)
  }

  function Trim(sym: Token, pf: PortfolioState, price: Prices, cfg: Config, chain: string): Intent {
    var value := Usd(Qty(pf.positions, sym), PriceOrZero(price, sym));
    Intent(Rebalance, chain, sym, cfg.quotes[0], Cents(Min(cfg.minTrades.microUsd, Max(1.5, value * 0.5))), Binding)
  }

  /** The token of an upward rebalance: the best risk-on one, or else the calmest one not held. */
  function RebalanceTarget(ranked: seq<TokenView>, entryViews: seq<TokenView>, ps: seq<Holding>): Option<Token> {
    if ranked != [] then Some(ranked[0].symbol)
    else
      var calm := Calmest(entryViews, ps);
      if calm.Some? then Some(calm.value.symbol) else None
  }

  function WhyHold(rung: Rung, room: real, ranked: seq<TokenView>): Abstain {
    if rung == StablecoinMode || rung == NoNewRisk then DrawdownProximity
    else if room <= 0.01 then ExposureFull
    else if ranked == [] then RegimeConflict
    else RateOrInterval
  }

  predicate CanTakeRisk(rung: Rung, room: real) { (rung == Full || rung == HalveSize) && room > 0.01 }

  /** Steps 3, 3b and 4 of the cascade, after no exit and no entry. */
  function NudgeOrHold(pf: PortfolioState, price: Prices, cfg: Config, rung: Rung, chain: string,
                       entryViews: seq<TokenView>, ranked: seq<TokenView>): Intent
  {
    var mt := cfg.minTrades;
    var quote := cfg.quotes[0];
    var room := cfg.risk.maxRisky - pf.exposure;
    var rebalancing := pf.sinceLastTrade >= cfg.risk.minInterval && rung != StablecoinMode;
    var low := pf.exposure < mt.targetRatio - mt.band && CanTakeRisk(rung, room);
    var target := RebalanceTarget(ranked, entryViews, pf.positions);
    if rebalancing && low && target.Some? then
      Intent(Rebalance, chain, quote, target.value, Cents(mt.microUsd), Binding)
    else if rebalancing && !low && pf.exposure > mt.targetRatio + mt.band && pf.positions != [] then
      Intent(Rebalance, chain, pf.positions[Largest(pf.positions, price)].sym, quote, Cents(mt.microUsd), Binding)
    else
      var counted := Counted(cfg, price);
      if rung == NoNewRisk && counted != [] && pf.sinceLastTrade >= mt.complianceGap then
        FloorTrade(counted, pf, price, cfg, chain)
      else
        Intent(Stay, chain, quote, quote, 0.0, WhyHold(rung, room, ranked))
  }

  function ExitIntent(h: Holding, price: Prices, cfg: Config, chain: string): Intent
    requires h.sym in price
  {
    Intent(Exit, chain, h.sym, cfg.quotes[0], Cents(Usd(h.qty, price[h.sym])), Binding)
  }

  function EnterIntent(v: TokenView, pf: PortfolioState, cfg: Config, rung: Rung, room: real, chain: string): Intent {
    Intent(Enter, chain, cfg.quotes[0], v.symbol, Cents(EntrySize(v, pf, cfg, rung, room)), Binding)
  }

  /** Steps 2 to 4, once nothing has to leave. */
  function EnterOrNudge(views: seq<TokenView>, pf: PortfolioState, cfg: Config, rung: Rung, chain: string): Intent {
    var entryViews := EntryViews(views, cfg);
    var ranked := Signals.RankEntries(entryViews, cfg.volEnterMax);
    var room := cfg.risk.maxRisky - pf.exposure;
    var entry := FirstEntry(ranked, pf, cfg, rung, room);
    if CanTakeRisk(rung, room) && entry < |ranked| then EnterIntent(ranked[entry], pf, cfg, rung, room, chain)
    else NudgeOrHold(pf, PriceMap(views), cfg, rung, chain, entryViews, ranked)
  }

  function Decide(views: seq<TokenView>, pf: PortfolioState, cfg: Config, now: real, chain: string): Intent {
    var rung := Ladder.RungAt(cfg.ladder, pf.drawdownPct);
    var exit := FirstExit(pf.positions, PriceMap(views), rung, cfg, now);
    if exit < |pf.positions| then ExitIntent(pf.positions[exit], PriceMap(views), cfg, chain)
    else EnterOrNudge(views, pf, cfg, rung, chain)
  }

  /** Nothing else is proposed while a position is due to leave. */
  lemma ExitsComeFirst(views: seq<TokenView>, pf: PortfolioState, cfg: Config, now: real, chain: string)
    requires Decide(views, pf, cfg, now, chain).action != Exit
    ensures var rung := Ladder.RungAt(cfg.ladder, pf.drawdownPct);
            forall h :: h in pf.positions ==> !ExitDue(h, PriceMap(views), rung, cfg, now)
  {
  }

  method SearchExit(ps: seq<Holding>, price: Prices, rung: Rung, cfg: Config, now: real) returns (i: nat)
    ensures i == FirstExit(ps, price, rung, cfg, now)
  {
    i := 0;
    while i < |ps|
      invariant i <= FirstExit(ps, price, rung, cfg, now)
    {
      if ExitDue(ps[i], price, rung, cfg, now) {
        return;
      }
      i := i + 1;
    }
  }

  method SearchEntry(ranked: seq<TokenView>, pf: PortfolioState, cfg: Config, rung: Rung, room: real) returns (i: nat)
    ensures i == FirstEntry(ranked, pf, cfg, rung, room)
  {
    i := 0;
    while i < |ranked|
      invariant i <= FirstEntry(ranked, pf, cfg, rung, room)
    {
      if Enterable(ranked[i], pf, cfg, rung, room) {
        return;
      }
      i := i + 1;
    }
  }

  method EnterStepwise(views: seq<TokenView>, pf: PortfolioState, cfg: Config, rung: Rung, chain: string)
    returns (intent: Intent)
    ensures intent == EnterOrNudge(views, pf, cfg, rung, chain)
  {
    var entryViews := EntryViews(views, cfg);
    var ranked := Signals.Rank(entryViews, cfg.volEnterMax);
    intent := EnterRanked(ranked, entryViews, PriceMap(views), pf, cfg, rung, chain);
  }

  /** Entries in ranking order, then what remains of the cascade. */
  method EnterRanked(ranked: seq<TokenView>, entryViews: seq<TokenView>, price: Prices, pf: PortfolioState, cfg: Config,
                     rung: Rung, chain: string)
    returns (intent: Intent)
    ensures var room := cfg.risk.maxRisky - pf.exposure;
            var entry := FirstEntry(ranked, pf, cfg, rung, room);
            intent ==
              if CanTakeRisk(rung, room) && entry < |ranked| then EnterIntent(ranked[entry], pf, cfg, rung, room, chain)
              else NudgeOrHold(pf, price, cfg, rung, chain, entryViews, ranked)
  {
    var room := cfg.risk.maxRisky - pf.exposure;
    if CanTakeRisk(rung, room) {
      var entry := SearchEntry(ranked, pf, cfg, rung, room);
      if entry < |ranked| {
        return EnterIntent(ranked[entry], pf, cfg, rung, room, chain);
      }
    }
    intent := NudgeOrHold(pf, price, cfg, rung, chain, entryViews, ranked);
  }

  /** The cascade as the source runs it: two search loops, each leaving on its first hit. */
  method DecideStepwise(views: seq<TokenView>, pf: PortfolioState, cfg: Config, now: real, chain: string)
    returns (intent: Intent)
    ensures intent == Decide(views, pf, cfg, now, chain)
  {
    var rung := Ladder.WalkLadder(cfg.ladder, pf.drawdownPct);
    var exit := SearchExit(pf.positions, PriceMap(views), rung, cfg, now);
    if exit < |pf.positions| {
      intent := ExitIntent(pf.positions[exit], PriceMap(views), cfg, chain);
    } else {
      intent := EnterStepwise(views, pf, cfg, rung, chain);
    }
  }
}
