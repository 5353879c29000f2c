// agent/core.py and the reconciliation of agent/run_live.py: the trading ledger and one decision tick over it.
module Core {
  import opened Types
  import opened Money
  import opened Survival
  import Engine

  datatype Pending = Pending(id: int, side: Side, fromToken: Token, toToken: Token, amountUsd: real)

  /** The state dictionary of the live loop. */
  datatype Ledger = Ledger(positions: seq<Holding>, stable: real, nav: real, hwm: real,
                           lastTrade: real, trades: int, tradesLastHour: int,
                           intentSeq: int, pending: Option<Pending>)

  ghost predicate DistinctSymbols(ps: seq<Holding>) {
    forall i, j :: 0 <= i < j < |ps| ==> ps[i].sym != ps[j].sym
  }

  /** No token twice and nothing held short. */
  ghost predicate Sound(ps: seq<Holding>) {
    DistinctSymbols(ps) && forall i :: 0 <= i < |ps| ==> ps[i].qty >= 0.0
  }

  // ------------------------------------------------------------ marking

  /** price.get(sym) or entry_price */
  function MarkPrice(h: Holding, price: Prices): real {
    if PriceOrZero(price, h.sym) != 0.0 then price[h.sym] else h.entryPrice
  }

  function Worth(h: Holding, price: Prices): real { Usd(h.qty, MarkPrice(h, price)) }

  function RiskyValue(ps: seq<Holding>, price: Prices): real {
    if ps == [] then 0.0
    else
      var h := ps[|ps| - 1];
      RiskyValue(ps[..|ps| - 1], price) + Worth(h, price)
  }

  function MarkedNav(l: Ledger, price: Prices): real { l.stable + RiskyValue(l.positions, price) }

  function Marked(l: Ledger, price: Prices): Ledger {
    var nav := MarkedNav(l, price);
    l.(nav := nav, hwm := Max(l.hwm, nav))
  }

  function Drawdown(l: Ledger): real {
    if l.hwm > 0.0 then Max(0.0, (l.hwm - l.nav) / l.hwm * 100.0) else 0.0
  }

  // ------------------------------------------------------------ the strategy's view of the ledger

  /** The strategy's own valuation: price.get(sym, entry_price), which keeps a quoted zero. */
  function ViewPrice(h: Holding, price: Prices): real { if h.sym in price then price[h.sym] else h.entryPrice }

  function ViewValue(ps: seq<Holding>, price: Prices): real {
    if ps == [] then 0.0
    else
      var h := ps[|ps| - 1];
      ViewValue(ps[..|ps| - 1], price) + Usd(h.qty, ViewPrice(h, price))
  }

  function ViewOf(l: Ledger, risky: real, now: real): PortfolioState {
    PortfolioState(l.nav, Max(0.0, l.nav - risky), l.positions, Drawdown(l),
                   if l.nav > 0.0 then Units(risky, l.nav) else 0.0, l.trades,
                   if l.lastTrade != 0.0 then now - l.lastTrade else 1000000000.0)
  }

  function BuildState(l: Ledger, price: Prices, now: real): PortfolioState {
    ViewOf(l, ViewValue(l.positions, price), now)
  }

  method AccumulateState(l: Ledger, price: Prices, now: real) returns (pf: PortfolioState)
    ensures pf == BuildState(l, price, now)
  {
    var risky := 0.0;
    for i := 0 to |l.positions|
      invariant risky == ViewValue(l.positions[..i], price)
    {
      assert l.positions[..i + 1][..i] == l.positions[..i];
      risky := risky + Usd(l.positions[i].qty, ViewPrice(l.positions[i], price));
    }
    assert l.positions[..|l.positions|] == l.positions;
    pf := ViewOf(l, risky, now);
  }

  // ------------------------------------------------------------ intent to decision

  function ToDecision(it: Intent): Decision {
    var side := match it.action
      case Enter => Buy
      case Exit => Sell
      case Rebalance => if it.toToken == "USDT" || it.toToken == "USDC" then Sell else Buy
      case Stay => Hold;
    Decision(side, it.chain, it.fromToken, it.toToken, it.amountUsd)
  }

  // ------------------------------------------------------------ booking a fill

  const EPS := 0.000000001

  /** Averaging in: total quantity, and the entry price weighted by quantity. */
  function Merged(was: Holding, qty: real, px: real): Holding {
    var total := was.qty + qty;
    was.(qty := total,
         entryPrice := if total != 0.0 then Units(Usd(was.entryPrice, was.qty) + Usd(px, qty), total) else px)
  }

  function Bought(ps: seq<Holding>, sym: Token, qty: real, px: real, now: real): seq<Holding> {
    var i := IndexOf(ps, sym);
    if i < |ps| then ps[i := Merged(ps[i], qty, px)] else ps + [Holding(sym, qty, px, now)]
  }

  /** Units sold for an amount: never more than is held. */
  function UnitsSold(h: Holding, amount: real, px: real): real
    requires px > 0.0
  {
    Min(h.qty, Units(amount, px))
  }

  function Sold(ps: seq<Holding>, i: nat, units: real): seq<Holding>
    requires i < |ps|
  {
    var left := ps[i].qty - units;
    if left <= EPS then ps[..i] + ps[i + 1..] else ps[i := ps[i].(qty := left)]
  }

  function Filled(l: Ledger, d: Decision, amount: real, price: Prices, now: real): Ledger {
    if d.side == Buy then
      var px := PriceOrZero(price, d.toToken);
      if px > 0.0 && amount <= l.stable + EPS then
        l.(stable := l.stable - amount, positions := Bought(l.positions, d.toToken, Units(amount, px), px, now))
      else l
    else if d.side == Sell then
      var px := PriceOrZero(price, d.fromToken);
      var i := IndexOf(l.positions, d.fromToken);
      if px > 0.0 && i < |l.positions| then
        var units := UnitsSold(l.positions[i], amount, px);
        l.(stable := l.stable + Usd(units, px), positions := Sold(l.positions, i, units))
      else l
    else l
  }

  // ------------------------------------------------------------ one tick

  /** What the feed and the executor bring to one tick; a live executor numbers its orders. */
  datatype Feed = Feed(views: seq<TokenView>, dataTs: real, now: real, live: bool, fills: bool)

  function Proposal(l: Ledger, f: Feed, cfg: Config): Decision {
    ToDecision(Decide(f.views, BuildState(l, PriceMap(f.views), f.now), cfg, f.now, "bsc"))
  }

  function EngineView(l: Ledger, f: Feed): Engine.PortfolioView {
    var pf := BuildState(l, PriceMap(f.views), f.now);
    Engine.PortfolioView(pf.nav, pf.drawdownPct, pf.exposure, l.tradesLastHour, pf.sinceLastTrade)
  }

  function Ruled(l: Ledger, f: Feed, cfg: Config): Engine.Verdict {
    Engine.Check(Proposal(l, f, cfg), EngineView(l, f), Max(0.0, f.now - f.dataTs), cfg)
  }

  /** Does this tick send an order? */
  predicate Orders(l: Ledger, f: Feed, cfg: Config) {
    Ruled(l, f, cfg).Allowed() && Proposal(l, f, cfg).IsTrade()
  }

  /** The ledger with no intent pending, and one more intent counted when an order was numbered. */
  function Cleared(l: Ledger, numbered: bool): Ledger {
    l.(pending := None, intentSeq := if numbered then l.intentSeq + 1 else l.intentSeq)
  }

  function Ticked(l: Ledger, f: Feed, cfg: Config): Ledger {
    var cleared := Cleared(l, Orders(l, f, cfg) && f.live);
    if Orders(l, f, cfg) && f.fills then
      Filled(cleared, Proposal(l, f, cfg), Ruled(l, f, cfg).finalUsd, PriceMap(f.views), f.now)
        .(lastTrade := f.now, trades := l.trades + 1)
    else cleared
  }

  /** The live order of one iteration: mark, tick, mark. */
  function Round(l: Ledger, f: Feed, cfg: Config): Ledger {
    var price := PriceMap(f.views);
    Marked(Ticked(Marked(l, price), f, cfg), price)
  }

  // ------------------------------------------------------------ reconciliation with the chain

  /** One wallet balance, in the order the symbols were asked for. */
  datatype Balance = Balance(sym: Token, qty: real)

  function BalanceOf(bals: seq<Balance>, sym: Token): real {
    if bals == [] then 0.0 else if bals[0].sym == sym then bals[0].qty else BalanceOf(bals[1..], sym)
  }

  /** price.get(s) or 1.0 */
  function StablePrice(price: Prices, sym: Token): real {
    if PriceOrZero(price, sym) != 0.0 then price[sym] else 1.0
  }

  function StableCash(quotes: seq<Token>, bals: seq<Balance>, price: Prices): real {
    Sum(quotes, (s: Token) => Usd(BalanceOf(bals, s), StablePrice(price, s)))
  }

  const DUST_USD := 1.0

  predicate Kept(b: Balance, price: Prices, quotes: seq<Token>) {
    b.sym !in quotes && Usd(b.qty, PriceOrZero(price, b.sym)) >= DUST_USD
  }

  function Reentered(b: Balance, known: seq<Holding>, price: Prices, now: real): Holding {
    var i := IndexOf(known, b.sym);
    if i < |known| then known[i].(qty := b.qty) else Holding(b.sym, b.qty, PriceOrZero(price, b.sym), now)
  }

  function ChainPositions(bals: seq<Balance>, known: seq<Holding>, price: Prices, quotes: seq<Token>, now: real)
    : seq<Holding>
  {
    if bals == [] then []
    else
      var n := |bals| - 1;
      var ps := ChainPositions(bals[..n], known, price, quotes, now);
      if Kept(bals[n], price, quotes) then ps + [Reentered(bals[n], known, price, now)] else ps
  }

  function Synced(l: Ledger, bals: seq<Balance>, price: Prices, quotes: seq<Token>, now: real): Ledger {
    l.(positions := ChainPositions(bals, l.positions, price, quotes, now), stable := StableCash(quotes, bals, price))
  }

  /** One pass of the live loop: reconcile when the chain was read, then mark, tick, mark. */
  datatype Pass = Pass(chain: Option<seq<Balance>>, feed: Feed)

  function Reconciled(l: Ledger, p: Pass, cfg: Config): Ledger {
    if p.chain.Some? then Synced(l, p.chain.value, PriceMap(p.feed.views), cfg.quotes, p.feed.now) else l
  }

  function Passed(l: Ledger, p: Pass, cfg: Config): Ledger {
    Round(Reconciled(l, p, cfg), p.feed, cfg)
  }

  function Run(l: Ledger, passes: seq<Pass>, cfg: Config): Ledger {
    if passes == [] then l
    else Passed(Run(l, passes[..|passes| - 1], cfg), passes[|passes| - 1], cfg)
  }

  // ------------------------------------------------------------ the mutable state

  /** The live loop's state dictionary, updated in place. */
  class LiveState {
    var positions: seq<Holding>
    var stable: real
    var nav: real
    var hwm: real
    var lastTrade: real
    var trades: int
    var tradesLastHour: int
    var intentSeq: int
    var pending: Option<Pending>

    ghost function Value(): Ledger
      reads this
    {
      Ledger(positions, stable, nav, hwm, lastTrade, trades, tradesLastHour, intentSeq, pending)
    }

    constructor (l: Ledger)
      ensures Value() == l
    {
      positions, stable, nav, hwm := l.positions, l.stable, l.nav, l.hwm;
      lastTrade, trades, tradesLastHour := l.lastTrade, l.trades, l.tradesLastHour;
      intentSeq, pending := l.intentSeq, l.pending;
    }

    /** mark_nav */
    method MarkNav(price: Prices)
      modifies this`nav, this`hwm
      ensures Value() == Marked(old(Value()), price)
    {
      var risky := 0.0;
      for i := 0 to |positions|
        invariant risky == RiskyValue(positions[..i], price)
      {
        assert positions[..i + 1][..i] == positions[..i];
        risky := risky + Worth(positions[i], price);
      }
      assert positions[..|positions|] == positions;
      nav := stable + risky;
      if nav > hwm {
        hwm := nav;
      }
    }

    /** _apply_fill */
    method ApplyFill(d: Decision, amount: real, price: Prices, now: real)
      modifies this`positions, this`stable
      ensures Value() == Filled(old(Value()), d, amount, price, now)
    {
      if d.side == Buy {
        var px := PriceOrZero(price, d.toToken);
        if px > 0.0 && amount <= stable + EPS {
          stable := stable - amount;
          positions := Bought(positions, d.toToken, Units(amount, px), px, now);
        }
      } else if d.side == Sell {
        var px := PriceOrZero(price, d.fromToken);
        var i := IndexOf(positions, d.fromToken);
        if i < |positions| && px > 0.0 {
          var units := UnitsSold(positions[i], amount, px);
          stable := stable + Usd(units, px);
          positions := Sold(positions, i, units);
        }
      }
    }

    /** sync_state_from_chain: overwrite positions and cash, or hold when the chain cannot be read. */
    method SyncFromChain(chain: Option<seq<Balance>>, price: Prices, cfg: Config, now: real) returns (ok: bool)
      modifies this`positions, this`stable
      ensures ok <==> chain.Some?
      ensures ok ==> Value() == Synced(old(Value()), chain.value, price, cfg.quotes, now)
      ensures !ok ==> Value() == old(Value())
    {
      if chain.None? {
        return false;
      }
      var bals := chain.value;
      var rebuilt: seq<Holding> := [];
      for i := 0 to |bals|
        invariant rebuilt == ChainPositions(bals[..i], positions, price, cfg.quotes, now)
      {
        assert bals[..i + 1][..i] == bals[..i];
        if bals[i].sym !in cfg.quotes {
          var usd := Usd(bals[i].qty, PriceOrZero(price, bals[i].sym));
          if usd >= DUST_USD {
            rebuilt := rebuilt + [Reentered(bals[i], positions, price, now)];
          }
        }
      }
      assert bals[..|bals|] == bals;
      stable := StableCash(cfg.quotes, bals, price);
      positions := rebuilt;
      ok := true;
    }

    /** tick, for an executor whose outcome the feed names; the crash-safe staging is in module Protocol. */
    method Tick(f: Feed, cfg: Config) returns (ordered: bool)
      modifies this
      ensures Value() == Ticked(old(Value()), f, cfg)
      ensures ordered == Orders(old(Value()), f, cfg)
    {
      var before := Ledger(positions, stable, nav, hwm, lastTrade, trades, tradesLastHour, intentSeq, pending);
      var d, v := Consult(before, f, cfg);
      pending := None;
      ordered := v.Allowed() && d.IsTrade();
      if ordered && f.live {
        intentSeq := intentSeq + 1;
      }
      if ordered && f.fills {
        ApplyFill(d, v.finalUsd, PriceMap(f.views), f.now);
        lastTrade := f.now;
        trades := trades + 1;
      }
    }
  }

  /** Strategy then engine: the proposal of a tick and the ruling on it. */
  method Consult(l: Ledger, f: Feed, cfg: Config) returns (d: Decision, v: Engine.Verdict)
    ensures d == Proposal(l, f, cfg) && v == Ruled(l, f, cfg)
  {
    var pf := AccumulateState(l, PriceMap(f.views), f.now);
    var intent := DecideStepwise(f.views, pf, cfg, f.now, "bsc");
    d := ToDecision(intent);
    var view := Engine.PortfolioView(pf.nav, pf.drawdownPct, pf.exposure, l.tradesLastHour, pf.sinceLastTrade);
    assert view == EngineView(l, f);
    v := Engine.Check(d, view, Max(0.0, f.now - f.dataTs), cfg);
  }
}
