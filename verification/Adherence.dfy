// Rule adherence by construction: the strategy never proposes what the committed whitelist or ladder forbids.
module Adherence {
  import opened Types
  import opened Money
  import opened Survival
  import opened Core
  import Engine
  import Ladder
  import Signals

  predicate Dollar(t: Token) { t == "USDT" || t == "USDC" }

  /** The config lets every universe token be traded against its first quote token, and keeps the two apart. */
  ghost predicate PolicyClosed(cfg: Config) {
    var quote := cfg.quotes[0];
    && Dollar(quote) && quote in cfg.allowedTokens
    && forall t :: t in cfg.universe ==>
         && !Dollar(t) && t !in cfg.quotes && t in cfg.allowedTokens
         && ("bsc", quote, t) in cfg.allowedPairs && ("bsc", t, quote) in cfg.allowedPairs
  }

  lemma CommittedPolicyClosed()
    ensures PolicyClosed(LIVE)
  {
    assert LIVE.universe == ["WBNB", "BTCB", "ETH", "CAKE"];
    assert LIVE.quotes == ["USDT", "USDC"];
  }

  ghost predicate UniverseOnly(ps: seq<Holding>, cfg: Config) {
    forall i :: 0 <= i < |ps| ==> ps[i].sym in cfg.universe
  }

  /** A proposal is a hold, a sale of something held back to the quote, or a purchase of a buyable token with it. */
  ghost predicate InPolicy(d: Decision, ps: seq<Holding>, cfg: Config) {
    var quote := cfg.quotes[0];
    && d.chain == "bsc"
    && match d.side
       case Hold => true
       case Sell => Holds(ps, d.fromToken) && d.fromToken in cfg.universe && d.toToken == quote
       case Buy => d.fromToken == quote && Buyable(d.toToken, cfg)
  }

  lemma HeldIsUniverse(ps: seq<Holding>, i: nat, cfg: Config)
    requires i < |ps| && UniverseOnly(ps, cfg)
    ensures Holds(ps, ps[i].sym) && ps[i].sym in cfg.universe
  {
  }

  lemma {:induction false} RankedFromViews(views: seq<TokenView>, volMax: real, v: TokenView)
    requires v in Signals.RankEntries(views, volMax)
    ensures v in views
  {
    Signals.RankedAreRiskOn(views, volMax, v);
    assert v in multiset(Signals.RankEntries(views, volMax));
    assert v in multiset(views);
  }

  lemma SaleInPolicy(sym: Token, amount: real, ps: seq<Holding>, cfg: Config)
    requires PolicyClosed(cfg) && Holds(ps, sym) && UniverseOnly(ps, cfg)
    ensures InPolicy(ToDecision(Intent(Rebalance, "bsc", sym, cfg.quotes[0], amount, Binding)), ps, cfg)
  {
    assert ps[IndexOf(ps, sym)].sym == sym;
  }

  lemma BuyInPolicy(sym: Token, amount: real, ps: seq<Holding>, cfg: Config)
    requires PolicyClosed(cfg) && Buyable(sym, cfg)
    ensures InPolicy(ToDecision(Intent(Rebalance, "bsc", cfg.quotes[0], sym, amount, Binding)), ps, cfg)
  {
    assert !Dollar(sym);
  }

  lemma FloorInPolicy(counted: seq<Token>, pf: PortfolioState, price: Prices, cfg: Config)
    requires PolicyClosed(cfg) && UniverseOnly(pf.positions, cfg)
    requires counted != [] && forall t :: t in counted ==> Buyable(t, cfg)
    ensures InPolicy(ToDecision(FloorTrade(counted, pf, price, cfg, "bsc")), pf.positions, cfg)
  {
    var it := FloorTrade(counted, pf, price, cfg, "bsc");
    assert Buyable(counted[0], cfg);
    if it.fromToken == cfg.quotes[0] {
      BuyInPolicy(counted[0], it.amountUsd, pf.positions, cfg);
    }
    if Holds(pf.positions, it.fromToken) {
      SaleInPolicy(it.fromToken, it.amountUsd, pf.positions, cfg);
    }
  }

  lemma TargetBuyable(ranked: seq<TokenView>, entryViews: seq<TokenView>, ps: seq<Holding>, cfg: Config)
    requires forall v :: v in ranked ==> v in entryViews
    requires forall v :: v in entryViews ==> Buyable(v.symbol, cfg)
    ensures RebalanceTarget(ranked, entryViews, ps).Some? ==>
              Buyable(RebalanceTarget(ranked, entryViews, ps).value, cfg)
  {
    if ranked != [] {
      assert ranked[0] in ranked;
    }
  }

  lemma NudgeInPolicy(pf: PortfolioState, price: Prices, cfg: Config, rung: Rung, entryViews: seq<TokenView>,
                      ranked: seq<TokenView>)
    requires PolicyClosed(cfg) && UniverseOnly(pf.positions, cfg)
    requires forall v :: v in ranked ==> v in entryViews
    requires forall v :: v in entryViews ==> Buyable(v.symbol, cfg)
    ensures InPolicy(ToDecision(NudgeOrHold(pf, price, cfg, rung, "bsc", entryViews, ranked)), pf.positions, cfg)
  {
    var it := NudgeOrHold(pf, price, cfg, rung, "bsc", entryViews, ranked);
    var counted := Counted(cfg, price);
    TargetBuyable(ranked, entryViews, pf.positions, cfg);
    var target := RebalanceTarget(ranked, entryViews, pf.positions);
    if target.Some? {
      BuyInPolicy(target.value, Cents(cfg.minTrades.microUsd), pf.positions, cfg);
    }
    if pf.positions != [] {
      var sym := pf.positions[Largest(pf.positions, price)].sym;
      HeldIsUniverse(pf.positions, Largest(pf.positions, price), cfg);
      SaleInPolicy(sym, Cents(cfg.minTrades.microUsd), pf.positions, cfg);
    }
    if counted != [] {
      FloorInPolicy(counted, pf, price, cfg);
    }
  }

  lemma EnterInPolicy(views: seq<TokenView>, pf: PortfolioState, cfg: Config, rung: Rung)
    requires PolicyClosed(cfg) && UniverseOnly(pf.positions, cfg)
    ensures InPolicy(ToDecision(EnterOrNudge(views, pf, cfg, rung, "bsc")), pf.positions, cfg)
  {
    var entryViews := EntryViews(views, cfg);
    var ranked := Signals.RankEntries(entryViews, cfg.volEnterMax);
    forall v | v in ranked ensures v in entryViews {
      RankedFromViews(entryViews, cfg.volEnterMax, v);
    }
    NudgeInPolicy(pf, PriceMap(views), cfg, rung, entryViews, ranked);
    var entry := FirstEntry(ranked, pf, cfg, rung, cfg.risk.maxRisky - pf.exposure);
    if entry < |ranked| {
      assert ranked[entry] in ranked;
    }
  }

  lemma DecideInPolicy(views: seq<TokenView>, pf: PortfolioState, cfg: Config, now: real)
    requires PolicyClosed(cfg) && UniverseOnly(pf.positions, cfg)
    ensures InPolicy(ToDecision(Decide(views, pf, cfg, now, "bsc")), pf.positions, cfg)
  {
    var rung := Ladder.RungAt(cfg.ladder, pf.drawdownPct);
    var exit := FirstExit(pf.positions, PriceMap(views), rung, cfg, now);
    if exit < |pf.positions| {
      HeldIsUniverse(pf.positions, exit, cfg);
    } else {
      EnterInPolicy(views, pf, cfg, rung);
    }
  }

  lemma ProposalInPolicy(l: Ledger, f: Feed, cfg: Config)
    requires PolicyClosed(cfg) && UniverseOnly(l.positions, cfg)
    ensures InPolicy(Proposal(l, f, cfg), l.positions, cfg)
  {
    DecideInPolicy(f.views, BuildState(l, PriceMap(f.views), f.now), cfg, f.now);
  }

  /** Not a whitelist, pair or stablecoin-mode refusal. */
  predicate Adherent(reason: Engine.Reason) {
    reason != Engine.OffList && reason != Engine.OffPair && reason != Engine.StablecoinOnly
  }

  /** What the engine says to a proposal that is in policy. */
  lemma CheckOfInPolicy(d: Decision, ps: seq<Holding>, pv: Engine.PortfolioView, age: real, cfg: Config)
    requires PolicyClosed(cfg) && UniverseOnly(ps, cfg) && InPolicy(d, ps, cfg)
    ensures var v := Engine.Check(d, pv, age, cfg);
            var rung := Ladder.RungAt(cfg.ladder, pv.drawdownPct);
            && v.reason != Engine.OffList && v.reason != Engine.OffPair
            && (d.side == Sell ==> v.reason != Engine.StablecoinOnly)
            && (d.side == Buy && d.IsTrade() && rung == NoNewRisk ==> !v.Allowed())
  {
    if d.side == Sell {
      assert d.fromToken in cfg.universe;
    } else if d.side == Buy {
      assert d.toToken in cfg.universe;
    }
  }

  lemma StablecoinModeNudgesNothing(pf: PortfolioState, price: Prices, cfg: Config, entryViews: seq<TokenView>,
                                    ranked: seq<TokenView>)
    ensures NudgeOrHold(pf, price, cfg, StablecoinMode, "bsc", entryViews, ranked).action == Stay
  {
  }

  lemma StablecoinModeExitsOrHolds(views: seq<TokenView>, pf: PortfolioState, cfg: Config, now: real)
    requires Ladder.RungAt(cfg.ladder, pf.drawdownPct) == StablecoinMode
    ensures var action := Decide(views, pf, cfg, now, "bsc").action;
            action == Exit || action == Stay
  {
    var entryViews := EntryViews(views, cfg);
    StablecoinModeNudgesNothing(pf, PriceMap(views), cfg, entryViews, Signals.RankEntries(entryViews, cfg.volEnterMax));
  }

  /** In stablecoin mode the strategy only exits or holds. */
  lemma StablecoinModeNeverBuys(l: Ledger, f: Feed, cfg: Config)
    requires Ladder.RungAt(cfg.ladder, Drawdown(l)) == StablecoinMode
    ensures Proposal(l, f, cfg).side != Buy
  {
    var pf := BuildState(l, PriceMap(f.views), f.now);
    StablecoinModeExitsOrHolds(f.views, pf, cfg, f.now);
    ExitIsNoBuy(Decide(f.views, pf, cfg, f.now, "bsc"));
  }

  lemma ExitIsNoBuy(it: Intent)
    requires it.action == Exit || it.action == Stay
    ensures ToDecision(it).side != Buy
  {
  }

  /** No proposal of the strategy is refused by the whitelist, the pair check or, in stablecoin mode, the ladder. */
  lemma RulingAdheres(l: Ledger, f: Feed, cfg: Config)
    requires PolicyClosed(cfg) && UniverseOnly(l.positions, cfg)
    ensures Adherent(Ruled(l, f, cfg).reason)
  {
    ProposalInPolicy(l, f, cfg);
    if Ladder.RungAt(cfg.ladder, Drawdown(l)) == StablecoinMode {
      StablecoinModeNeverBuys(l, f, cfg);
    }
    CheckAdheres(Proposal(l, f, cfg), l.positions, EngineView(l, f), Max(0.0, f.now - f.dataTs), cfg);
  }

  /** The same for any proposal in policy that is no buy in stablecoin mode. */
  lemma CheckAdheres(d: Decision, ps: seq<Holding>, pv: Engine.PortfolioView, age: real, cfg: Config)
    requires PolicyClosed(cfg) && UniverseOnly(ps, cfg) && InPolicy(d, ps, cfg)
    requires Ladder.RungAt(cfg.ladder, pv.drawdownPct) == StablecoinMode ==> d.side != Buy
    ensures Adherent(Engine.Check(d, pv, age, cfg).reason)
  {
    CheckOfInPolicy(d, ps, pv, age, cfg);
    if Ladder.RungAt(cfg.ladder, pv.drawdownPct) == StablecoinMode {
      HoldIsNoAction(d, pv, age, cfg);
    } else {
      LadderSpeaksOnRung(d, pv, age, cfg);
    }
  }

  lemma HoldIsNoAction(d: Decision, pv: Engine.PortfolioView, age: real, cfg: Config)
    ensures d.side == Hold ==> Engine.Check(d, pv, age, cfg).reason == Engine.HoldNoAction
  {
  }

  lemma LadderSpeaksOnRung(d: Decision, pv: Engine.PortfolioView, age: real, cfg: Config)
    requires Ladder.RungAt(cfg.ladder, pv.drawdownPct) != StablecoinMode
    ensures Engine.Check(d, pv, age, cfg).reason != Engine.StablecoinOnly
  {
    Engine.OnlyGateSpeaks(d, pv, age, cfg);
  }

  /** Under the no-new-risk rung every buy the strategy still proposes, the minimum-trade floor, is refused. */
  lemma NoBuyUnderNoNewRisk(l: Ledger, f: Feed, cfg: Config)
    requires PolicyClosed(cfg) && UniverseOnly(l.positions, cfg)
    requires Ladder.RungAt(cfg.ladder, Drawdown(l)) == NoNewRisk
    ensures Orders(l, f, cfg) ==> Proposal(l, f, cfg).side == Sell
  {
    ProposalInPolicy(l, f, cfg);
    CheckOfInPolicy(Proposal(l, f, cfg), l.positions, EngineView(l, f), Max(0.0, f.now - f.dataTs), cfg);
  }

  // ------------------------------------------------------------ every reachable state

  lemma TickKeepsUniverse(l: Ledger, f: Feed, cfg: Config)
    requires PolicyClosed(cfg) && UniverseOnly(l.positions, cfg)
    ensures UniverseOnly(Ticked(l, f, cfg).positions, cfg)
  {
    ProposalInPolicy(l, f, cfg);
    FillKeepsUniverse(Cleared(l, Orders(l, f, cfg) && f.live), Proposal(l, f, cfg), Ruled(l, f, cfg).finalUsd,
                      PriceMap(f.views), f.now, cfg);
  }

  lemma FillKeepsUniverse(l: Ledger, d: Decision, amount: real, price: Prices, now: real, cfg: Config)
    requires UniverseOnly(l.positions, cfg) && (d.side == Buy ==> d.toToken in cfg.universe)
    ensures UniverseOnly(Filled(l, d, amount, price, now).positions, cfg)
  {
  }

  /** The loop asks the chain only about universe and quote tokens. */
  ghost predicate AskedSymbols(p: Pass, cfg: Config) {
    p.chain.Some? ==> forall b :: b in p.chain.value ==> b.sym in cfg.universe || b.sym in cfg.quotes
  }

  lemma {:induction false} SyncKeepsUniverse(bals: seq<Balance>, known: seq<Holding>, price: Prices, now: real,
                                             cfg: Config)
    requires forall b :: b in bals ==> b.sym in cfg.universe || b.sym in cfg.quotes
    ensures UniverseOnly(ChainPositions(bals, known, price, cfg.quotes, now), cfg)
  {
    if bals != [] {
      SyncKeepsUniverse(bals[..|bals| - 1], known, price, now, cfg);
    }
  }

  lemma PassKeepsUniverse(l: Ledger, p: Pass, cfg: Config)
    requires PolicyClosed(cfg) && UniverseOnly(l.positions, cfg) && AskedSymbols(p, cfg)
    ensures UniverseOnly(Reconciled(l, p, cfg).positions, cfg)
    ensures UniverseOnly(Passed(l, p, cfg).positions, cfg)
  {
    var price := PriceMap(p.feed.views);
    if p.chain.Some? {
      SyncKeepsUniverse(p.chain.value, l.positions, price, p.feed.now, cfg);
    }
    TickKeepsUniverse(Marked(Reconciled(l, p, cfg), price), p.feed, cfg);
  }

  /** Every reachable state holds only universe tokens. */
  lemma {:induction false} RunKeepsUniverse(l: Ledger, passes: seq<Pass>, cfg: Config)
    requires PolicyClosed(cfg) && UniverseOnly(l.positions, cfg)
    requires forall p :: p in passes ==> AskedSymbols(p, cfg)
    ensures UniverseOnly(Run(l, passes, cfg).positions, cfg)
  {
    if passes != [] {
      var n := |passes| - 1;
      RunKeepsUniverse(l, passes[..n], cfg);
      PassKeepsUniverse(Run(l, passes[..n], cfg), passes[n], cfg);
    }
  }

  /** The ledger the tick of the next pass decides on. */
  function DecisionPoint(l: Ledger, passes: seq<Pass>, next: Pass, cfg: Config): Ledger {
    Marked(Reconciled(Run(l, passes, cfg), next, cfg), PriceMap(next.feed.views))
  }

  /** Under a closed policy every ruling of every run adheres, whatever the feed, the chain and the fills. */
  lemma RunAdheres(start: Ledger, passes: seq<Pass>, next: Pass, cfg: Config)
    requires PolicyClosed(cfg) && UniverseOnly(start.positions, cfg)
    requires forall p :: p in passes ==> AskedSymbols(p, cfg)
    requires AskedSymbols(next, cfg)
    ensures Adherent(Ruled(DecisionPoint(start, passes, next, cfg), next.feed, cfg).reason)
  {
    RunKeepsUniverse(start, passes, cfg);
    var before := Run(start, passes, cfg);
    PassKeepsUniverse(before, next, cfg);
    var l := DecisionPoint(start, passes, next, cfg);
    assert l.positions == Reconciled(before, next, cfg).positions;
    RulingAdheres(l, next.feed, cfg);
  }

  /** The committed config adheres from the empty book. */
  lemma CommittedRunsAdhere(start: Ledger, passes: seq<Pass>, next: Pass)
    requires start.positions == []
    requires forall p :: p in passes ==> AskedSymbols(p, LIVE)
    requires AskedSymbols(next, LIVE)
    ensures Adherent(Ruled(DecisionPoint(start, passes, next, LIVE), next.feed, LIVE).reason)
  {
    CommittedPolicyClosed();
    RunAdheres(start, passes, next, LIVE);
  }
}
