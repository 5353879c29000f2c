// Flattening terminates: in stablecoin mode the reconciled loop sells the whole book in a bounded number of ticks.
module Flatten {
  import opened Types
  import opened Money
  import opened Survival
  import opened Core
  import opened Fills
  import opened Adherence
  import opened WholeRun
  import Engine
  import Signals
  import Ladder

  // ------------------------------------------------------------ the wallet

  function BalanceIndex(w: seq<Balance>, sym: Token): (i: nat)
    ensures i <= |w|
    ensures i < |w| ==> w[i].sym == sym
    ensures forall j :: 0 <= j < i ==> w[j].sym != sym
  {
    if w == [] then 0 else if w[0].sym == sym then 0 else 1 + BalanceIndex(w[1..], sym)
  }

  ghost predicate DistinctBalances(w: seq<Balance>) {
    forall i, j :: 0 <= i < j < |w| ==> w[i].sym != w[j].sym
  }

  /** What a balance adds to the reconciled book. */
  function KeptOf(b: Balance, price: Prices, quotes: seq<Token>): real {
    if Kept(b, price, quotes) then Usd(b.qty, PriceOrZero(price, b.sym)) else 0.0
  }

  function KeptValue(w: seq<Balance>, price: Prices, quotes: seq<Token>): real {
    if w == [] then 0.0 else KeptValue(w[..|w| - 1], price, quotes) + KeptOf(w[|w| - 1], price, quotes)
  }

  /** Value of a risky balance, dust included. */
  function RiskyOf(b: Balance, price: Prices, quotes: seq<Token>): real {
    if b.sym in quotes then 0.0 else Usd(b.qty, PriceOrZero(price, b.sym))
  }

  function WalletRisk(w: seq<Balance>, price: Prices, quotes: seq<Token>): real {
    if w == [] then 0.0 else WalletRisk(w[..|w| - 1], price, quotes) + RiskyOf(w[|w| - 1], price, quotes)
  }

  /** Balances of the wallet not in stables. */
  function RiskyCount(w: seq<Balance>, quotes: seq<Token>): nat {
    if w == [] then 0 else RiskyCount(w[..|w| - 1], quotes) + (if w[|w| - 1].sym in quotes then 0 else 1)
  }

  lemma {:induction false} KeptUpdate(w: seq<Balance>, i: nat, b: Balance, price: Prices, quotes: seq<Token>)
    requires i < |w|
    ensures KeptValue(w[i := b], price, quotes)
            == KeptValue(w, price, quotes) - KeptOf(w[i], price, quotes) + KeptOf(b, price, quotes)
  {
    var n := |w| - 1;
    if i == n {
      assert w[i := b][..n] == w[..n];
    } else {
      assert w[i := b][..n] == w[..n][i := b];
      KeptUpdate(w[..n], i, b, price, quotes);
    }
  }

  lemma {:induction false} RiskUpdate(w: seq<Balance>, i: nat, b: Balance, price: Prices, quotes: seq<Token>)
    requires i < |w|
    ensures WalletRisk(w[i := b], price, quotes)
            == WalletRisk(w, price, quotes) - RiskyOf(w[i], price, quotes) + RiskyOf(b, price, quotes)
  {
    var n := |w| - 1;
    if i == n {
      assert w[i := b][..n] == w[..n];
    } else {
      assert w[i := b][..n] == w[..n][i := b];
      RiskUpdate(w[..n], i, b, price, quotes);
    }
  }

  // ------------------------------------------------------------ what reconciliation sees

  /** The reconciled book is worth exactly the kept balances. */
  lemma {:induction false} BookIsKept(w: seq<Balance>, known: seq<Holding>, price: Prices, quotes: seq<Token>,
                                      now: real)
    ensures RiskyValue(ChainPositions(w, known, price, quotes, now), price) == KeptValue(w, price, quotes)
  {
    if w != [] {
      var n := |w| - 1;
      BookIsKept(w[..n], known, price, quotes, now);
      var ps := ChainPositions(w[..n], known, price, quotes, now);
      if Kept(w[n], price, quotes) {
        RiskyAppend(ps, Reentered(w[n], known, price, now), price);
      }
    }
  }

  lemma {:induction false} KeptUnderstates(w: seq<Balance>, price: Prices, quotes: seq<Token>)
    requires forall i :: 0 <= i < |w| ==> w[i].qty >= 0.0
    requires forall t :: t in price ==> price[t] >= 0.0
    ensures 0.0 <= WalletRisk(w, price, quotes) - KeptValue(w, price, quotes) <= RiskyCount(w, quotes) as real
    ensures RiskyCount(w, quotes) > 0 ==>
              WalletRisk(w, price, quotes) - KeptValue(w, price, quotes) < RiskyCount(w, quotes) as real
  {
    if w != [] {
      var n := |w| - 1;
      KeptUnderstates(w[..n], price, quotes);
      UsdNonNegative(w[n].qty, PriceOrZero(price, w[n].sym));
    }
  }

  /** Everything in the wallet at the same prices, stables at their quote or at par. */
  function WalletValue(w: seq<Balance>, price: Prices, quotes: seq<Token>): real {
    StableCash(quotes, w, price) + WalletRisk(w, price, quotes)
  }

  /**
   * After a successful sync the marked NAV understates the wallet by less than a dollar per risky token asked about.
   */
  lemma {:induction false} SyncUnderstatesByDust(l: Ledger, w: seq<Balance>, price: Prices, quotes: seq<Token>,
                                                 now: real)
    requires forall i :: 0 <= i < |w| ==> w[i].qty >= 0.0
    requires forall t :: t in price ==> price[t] >= 0.0
    ensures var missing := WalletValue(w, price, quotes) - Marked(Synced(l, w, price, quotes, now), price).nav;
            && 0.0 <= missing <= RiskyCount(w, quotes) as real
            && (RiskyCount(w, quotes) > 0 ==> missing < RiskyCount(w, quotes) as real)
  {
    BookIsKept(w, l.positions, price, quotes, now);
    KeptUnderstates(w, price, quotes);
  }

  // ------------------------------------------------------------ a swap that fills at the marks

  function SwapPrice(price: Prices, quotes: seq<Token>, t: Token): real {
    if t in quotes then StablePrice(price, t) else PriceOrZero(price, t)
  }

  /** The executor sells up to the amount of one balance and credits the proceeds to the other. */
  function Swapped(w: seq<Balance>, d: Decision, amount: real, price: Prices, quotes: seq<Token>): seq<Balance> {
    var i, j := BalanceIndex(w, d.fromToken), BalanceIndex(w, d.toToken);
    var px, qx := SwapPrice(price, quotes, d.fromToken), SwapPrice(price, quotes, d.toToken);
    if i < |w| && j < |w| && i != j && px > 0.0 && qx > 0.0 then
      var units := Min(w[i].qty, Units(amount, px));
      w[i := w[i].(qty := w[i].qty - units)][j := w[j].(qty := w[j].qty + Units(Usd(units, px), qx))]
    else w
  }

  lemma {:induction false} BalanceOfIndex(w: seq<Balance>, sym: Token)
    ensures BalanceOf(w, sym) == if BalanceIndex(w, sym) < |w| then w[BalanceIndex(w, sym)].qty else 0.0
  {
    if w != [] {
      BalanceOfIndex(w[1..], sym);
    }
  }

  lemma {:induction false} BalanceAfterUpdate(w: seq<Balance>, i: nat, b: Balance, sym: Token)
    requires DistinctBalances(w) && i < |w| && b.sym == w[i].sym
    ensures BalanceOf(w[i := b], sym) == if sym == b.sym then b.qty else BalanceOf(w, sym)
  {
    BalanceOfIndex(w, sym);
    BalanceOfIndex(w[i := b], sym);
    var k, k' := BalanceIndex(w, sym), BalanceIndex(w[i := b], sym);
    assert k < |w| ==> w[i := b][k].sym == sym;
    assert k' < |w| ==> w[k'].sym == sym;
  }

  /** Stable cash after one stable balance changed. */
  lemma {:induction false} StableCashUpdate(quotes: seq<Token>, w: seq<Balance>, i: nat, b: Balance, price: Prices)
    requires Distinct(quotes) && DistinctBalances(w) && i < |w| && b.sym == w[i].sym
    ensures StableCash(quotes, w[i := b], price) == StableCash(quotes, w, price)
              + (if b.sym in quotes then Usd(b.qty - w[i].qty, StablePrice(price, b.sym)) else 0.0)
  {
    var f := (s: Token) => Usd(BalanceOf(w, s), StablePrice(price, s));
    var g := (s: Token) => Usd(BalanceOf(w[i := b], s), StablePrice(price, s));
    forall s ensures BalanceOf(w[i := b], s) == (if s == b.sym then b.qty else BalanceOf(w, s)) {
      BalanceAfterUpdate(w, i, b, s);
    }
    if b.sym in quotes {
      SumChange(quotes, f, g, b.sym);
      BalanceOfIndex(w, b.sym);
      assert BalanceIndex(w, b.sym) == i;
      UsdSplit(b.qty, w[i].qty, StablePrice(price, b.sym));
    } else {
      SumSame(quotes, f, g);
    }
  }

  // ------------------------------------------------------------ what one filled sale does to the wallet

  ghost predicate GoodWallet(w: seq<Balance>, cfg: Config) {
    && DistinctBalances(w)
    && (forall i :: 0 <= i < |w| ==> w[i].qty >= 0.0 && (w[i].sym in cfg.universe || w[i].sym in cfg.quotes))
    && BalanceIndex(w, cfg.quotes[0]) < |w|
  }

  /** A sale of the risky balance i for the first quote. */
  ghost predicate SaleOf(w: seq<Balance>, i: nat, d: Decision, amount: real, price: Prices, cfg: Config) {
    && GoodWallet(w, cfg) && i < |w| && w[i].sym !in cfg.quotes
    && d.fromToken == w[i].sym && d.toToken == cfg.quotes[0] && amount >= 0.0
    && PriceOrZero(price, w[i].sym) > 0.0 && StablePrice(price, cfg.quotes[0]) > 0.0
  }

  function SaleUnits(w: seq<Balance>, i: nat, amount: real, price: Prices): (r: real)
    requires i < |w| && PriceOrZero(price, w[i].sym) > 0.0
  {
    Min(w[i].qty, Units(amount, PriceOrZero(price, w[i].sym)))
  }

  function Drawn(w: seq<Balance>, i: nat, units: real): Balance
    requires i < |w|
  {
    w[i].(qty := w[i].qty - units)
  }

  function Credited(b: Balance, proceeds: real, price: Prices): Balance
    requires StablePrice(price, b.sym) > 0.0
  {
    b.(qty := b.qty + Units(proceeds, StablePrice(price, b.sym)))
  }

  lemma {:induction false} SwapIsTwoUpdates(w: seq<Balance>, i: nat, d: Decision, amount: real, price: Prices,
                                            cfg: Config)
    returns (j: nat)
    requires SaleOf(w, i, d, amount, price, cfg)
    ensures j < |w| && j != i && w[j].sym == cfg.quotes[0]
    ensures var units := SaleUnits(w, i, amount, price);
            var proceeds := Usd(units, PriceOrZero(price, w[i].sym));
            Swapped(w, d, amount, price, cfg.quotes) == w[i := Drawn(w, i, units)][j := Credited(w[j], proceeds, price)]
  {
    j := BalanceIndex(w, cfg.quotes[0]);
    assert BalanceIndex(w, d.fromToken) == i;
  }

  lemma {:induction false} DrawMovesValue(w: seq<Balance>, i: nat, units: real, price: Prices, cfg: Config)
    requires GoodWallet(w, cfg) && i < |w| && Kept(w[i], price, cfg.quotes) && PriceOrZero(price, w[i].sym) > 0.0
    requires 0.0 <= units <= w[i].qty && Distinct(cfg.quotes)
    ensures var w' := w[i := Drawn(w, i, units)];
            var proceeds := Usd(units, PriceOrZero(price, w[i].sym));
            && GoodWallet(w', cfg)
            && WalletRisk(w', price, cfg.quotes) == WalletRisk(w, price, cfg.quotes) - proceeds
            && StableCash(cfg.quotes, w', price) == StableCash(cfg.quotes, w, price)
            && KeptValue(w', price, cfg.quotes) <= KeptValue(w, price, cfg.quotes) - proceeds
  {
    var b := Drawn(w, i, units);
    GoodAfterUpdate(w, i, b, cfg);
    DrawnValue(w[i], units, price, cfg.quotes);
    RiskUpdate(w, i, b, price, cfg.quotes);
    KeptUpdate(w, i, b, price, cfg.quotes);
    StableCashUpdate(cfg.quotes, w, i, b, price);
  }

  lemma {:induction false} CreditMovesValue(w: seq<Balance>, j: nat, proceeds: real, price: Prices, cfg: Config)
    requires GoodWallet(w, cfg) && j < |w| && w[j].sym in cfg.quotes && StablePrice(price, w[j].sym) > 0.0
    requires proceeds >= 0.0 && Distinct(cfg.quotes)
    ensures var w' := w[j := Credited(w[j], proceeds, price)];
            && GoodWallet(w', cfg)
            && WalletRisk(w', price, cfg.quotes) == WalletRisk(w, price, cfg.quotes)
            && StableCash(cfg.quotes, w', price) == StableCash(cfg.quotes, w, price) + proceeds
            && KeptValue(w', price, cfg.quotes) == KeptValue(w, price, cfg.quotes)
  {
    var more := Units(proceeds, StablePrice(price, w[j].sym));
    var c := w[j].(qty := w[j].qty + more);
    QuotientNonNegative(proceeds, StablePrice(price, w[j].sym));
    UsdOfUnits(proceeds, StablePrice(price, w[j].sym));
    GoodAfterUpdate(w, j, c, cfg);
    RiskUpdate(w, j, c, price, cfg.quotes);
    KeptUpdate(w, j, c, price, cfg.quotes);
    assert c.qty - w[j].qty == more;
    StableCashUpdate(cfg.quotes, w, j, c, price);
  }

  /** The proceeds leave the risky side and arrive on the stable side; the kept value falls by at least as much. */
  lemma {:induction false} SaleMovesValue(w: seq<Balance>, i: nat, d: Decision, amount: real, price: Prices,
                                          cfg: Config)
    requires SaleOf(w, i, d, amount, price, cfg) && Distinct(cfg.quotes) && Kept(w[i], price, cfg.quotes)
    ensures var w' := Swapped(w, d, amount, price, cfg.quotes);
            var proceeds := Usd(SaleUnits(w, i, amount, price), PriceOrZero(price, w[i].sym));
            && GoodWallet(w', cfg) && proceeds >= 0.0
            && WalletRisk(w', price, cfg.quotes) == WalletRisk(w, price, cfg.quotes) - proceeds
            && StableCash(cfg.quotes, w', price) == StableCash(cfg.quotes, w, price) + proceeds
            && KeptValue(w', price, cfg.quotes) <= KeptValue(w, price, cfg.quotes) - proceeds
  {
    var px := PriceOrZero(price, w[i].sym);
    var units := SaleUnits(w, i, amount, price);
    QuotientNonNegative(amount, px);
    UsdNonNegative(units, px);
    var j := SwapIsTwoUpdates(w, i, d, amount, price, cfg);
    DrawMovesValue(w, i, units, price, cfg);
    var w1 := w[i := Drawn(w, i, units)];
    assert w1[j] == w[j];
    CreditMovesValue(w1, j, Usd(units, px), price, cfg);
  }

  lemma {:induction false} GoodAfterUpdate(w: seq<Balance>, i: nat, b: Balance, cfg: Config)
    requires GoodWallet(w, cfg) && i < |w| && b.sym == w[i].sym && b.qty >= 0.0
    ensures GoodWallet(w[i := b], cfg)
  {
    var k := BalanceIndex(w, cfg.quotes[0]);
    assert w[i := b][k].sym == cfg.quotes[0];
  }

  /** Drawing units off a kept balance lowers its value by their proceeds, and its kept value by at least that. */
  lemma {:induction false} DrawnValue(b: Balance, units: real, price: Prices, quotes: seq<Token>)
    requires Kept(b, price, quotes) && 0.0 <= units <= b.qty && PriceOrZero(price, b.sym) > 0.0
    ensures var after := b.(qty := b.qty - units);
            var proceeds := Usd(units, PriceOrZero(price, b.sym));
            && RiskyOf(after, price, quotes) == RiskyOf(b, price, quotes) - proceeds
            && KeptOf(after, price, quotes) <= KeptOf(b, price, quotes) - proceeds
  {
    UsdSplit(b.qty, units, PriceOrZero(price, b.sym));
    UsdNonNegative(b.qty - units, PriceOrZero(price, b.sym));
  }

  // ------------------------------------------------------------ the order of a stablecoin-mode tick

  /** Marked after a sync, in stablecoin mode, on fresh data, with the last trade far enough back. */
  ghost predicate Flattening(m: Ledger, f: Feed) {
    && JustMarked(m, PriceMap(f.views)) && UniverseOnly(m.positions, LIVE)
    && Drawdown(m) >= 3.0
    && m.tradesLastHour < 4 && (m.lastTrade != 0.0 ==> f.now - m.lastTrade >= 900.0)
    && f.now - f.dataTs <= 600.0 && f.fills
    && (forall h :: h in m.positions ==>
          h.sym in PriceMap(f.views) && h.qty > 0.0 && Usd(h.qty, PriceMap(f.views)[h.sym]) >= 1.0)
    && m.stable >= 0.0
  }

  lemma {:induction false} StablecoinRung(m: Ledger)
    requires Drawdown(m) >= 3.0
    ensures Ladder.RungAt(LIVE.ladder, Drawdown(m)) == StablecoinMode
  {
    LiveCapsNonNegative();
    Ladder.CommittedRungs(Drawdown(m));
  }

  /** The first position is proposed for exit at its whole value, which is a real trade of at least a dollar. */
  lemma {:induction false} ExitProposed(m: Ledger, f: Feed)
    requires Flattening(m, f) && m.positions != []
    ensures var h := m.positions[0];
            var d := Proposal(m, f, LIVE);
            && d == Decision(Sell, "bsc", h.sym, LIVE.quotes[0], Cents(Usd(h.qty, PriceMap(f.views)[h.sym])))
            && d.amountUsd >= 1.0 && d.IsTrade()
  {
    var pf := BuildState(m, PriceMap(f.views), f.now);
    StablecoinRung(m);
    assert m.positions[0] in m.positions;
    assert ExitDue(m.positions[0], PriceMap(f.views), StablecoinMode, LIVE, f.now);
    assert FirstExit(pf.positions, PriceMap(f.views), StablecoinMode, LIVE, f.now) == 0;
    CentsKeepsWhole(Usd(m.positions[0].qty, PriceMap(f.views)[m.positions[0].sym]), 100);
  }

  lemma {:induction false} NavAtLeastFirst(m: Ledger, price: Prices)
    requires m.nav == MarkedNav(m, price) && m.stable >= 0.0 && m.positions != []
    requires forall h :: h in m.positions ==> h.sym in price && Usd(h.qty, price[h.sym]) >= 1.0
    requires forall h :: h in m.positions ==> price[h.sym] > 0.0
    ensures m.nav >= 1.0
  {
    RiskyAtLeastCount(m.positions, price);
  }

  lemma {:induction false} RiskyAtLeastCount(ps: seq<Holding>, price: Prices)
    requires forall h :: h in ps ==> h.sym in price && price[h.sym] > 0.0 && Usd(h.qty, price[h.sym]) >= 1.0
    ensures RiskyValue(ps, price) >= |ps| as real
  {
    if ps != [] {
      var n := |ps| - 1;
      assert ps[n] in ps;
      RiskyAtLeastCount(ps[..n], price);
    }
  }

  /** The engine lets the exit through, for at least two cents. */
  lemma {:induction false} ExitAllowed(m: Ledger, f: Feed)
    requires Flattening(m, f) && m.positions != []
    ensures Orders(m, f, LIVE) && Ruled(m, f, LIVE).finalUsd >= 0.02
  {
    ExitProposed(m, f);
    NavAtLeastFirst(m, PriceMap(f.views));
    CommittedPolicyClosed();
    StablecoinRung(m);
    assert m.positions[0].sym in LIVE.universe;
    SaleAllowed(Proposal(m, f, LIVE), EngineView(m, f), Max(0.0, f.now - f.dataTs));
  }

  lemma {:induction false} SaleAllowed(d: Decision, pv: Engine.PortfolioView, age: real)
    requires PolicyClosed(LIVE)
    requires d.side == Sell && d.chain == "bsc" && d.fromToken in LIVE.universe && d.toToken == LIVE.quotes[0]
    requires d.amountUsd >= 1.0 && age <= 600.0 && pv.nav >= 1.0
    requires pv.tradesLastHour < 4 && pv.sinceLastTrade >= 900.0
    requires Ladder.RungAt(LIVE.ladder, pv.drawdownPct) == StablecoinMode
    ensures Engine.Check(d, pv, age, LIVE).Allowed() && Engine.Check(d, pv, age, LIVE).finalUsd >= 0.02
  {
    assert Engine.RiskReducing(d, LIVE) && !Engine.RiskIncreasing(d, LIVE);
    assert Engine.Gate(d, pv, age, LIVE, StablecoinMode).None?;
    assert Engine.RateLimit(pv, LIVE).None?;
    assert Engine.Check(d, pv, age, LIVE) == Engine.Finalise(pv, LIVE, d.amountUsd, StablecoinMode, false);
    ExitSize(pv, d.amountUsd);
  }

  /** Even capped, an exit of a dollar or more is for at least two cents when NAV is a dollar or more. */
  lemma {:induction false} ExitSize(pv: Engine.PortfolioView, amount: real)
    requires amount >= 1.0 && pv.nav >= 1.0
    ensures Engine.Finalise(pv, LIVE, amount, StablecoinMode, false).finalUsd >= 0.02
  {
    var cap := Engine.TradeCap(pv.nav, LIVE, StablecoinMode);
    assert Usd(pv.nav, LIVE.risk.maxSinglePct) == pv.nav * 0.025;
    assert cap >= 0.025;
    CentsKeepsWhole(Min(amount, cap), 2);
  }

  // ------------------------------------------------------------ passes of the reconciled loop

  /** The wallet on chain and the loop's ledger. */
  datatype Book = Book(wallet: seq<Balance>, ledger: Ledger)

  /** The ledger a pass decides on: reconciled, then marked. */
  function AtDecision(b: Book, f: Feed): Ledger {
    var price := PriceMap(f.views);
    Marked(Synced(b.ledger, b.wallet, price, LIVE.quotes, f.now), price)
  }

  function LivePass(b: Book, f: Feed): Book {
    var m := AtDecision(b, f);
    Book(if Orders(m, f, LIVE) && f.fills
         then Swapped(b.wallet, Proposal(m, f, LIVE), Ruled(m, f, LIVE).finalUsd, PriceMap(f.views), LIVE.quotes)
         else b.wallet,
         Marked(Ticked(m, f, LIVE), PriceMap(f.views)))
  }

  function LiveRun(b: Book, feeds: seq<Feed>): Book {
    if feeds == [] then b else LivePass(LiveRun(b, feeds[..|feeds| - 1]), feeds[|feeds| - 1])
  }

  /** Positive prices for the universe, none negative, stables worth something. */
  ghost predicate PositivePrices(price: Prices) {
    && (forall t :: t in LIVE.universe ==> t in price && price[t] > 0.0)
    && (forall t :: t in price ==> price[t] >= 0.0)
    && (forall s :: s in LIVE.quotes ==> StablePrice(price, s) > 0.0)
  }

  predicate Spaced(feeds: seq<Feed>, i: nat)
    requires 0 < i < |feeds|
  {
    feeds[i].now >= feeds[i - 1].now + 900.0
  }

  /** Fixed prices, fresh data, every swap filling, ticks at least 900 seconds apart. */
  ghost predicate FixedMarket(price: Prices, feeds: seq<Feed>) {
    && PositivePrices(price)
    && (forall i :: 0 <= i < |feeds| ==>
          PriceMap(feeds[i].views) == price && feeds[i].fills && feeds[i].now - feeds[i].dataTs <= 600.0)
    && (forall i :: 0 < i < |feeds| ==> Spaced(feeds, i))
  }

  /** In stablecoin mode at this pass, and free to trade. */
  ghost predicate InFlattening(b: Book, f: Feed) {
    && GoodWallet(b.wallet, LIVE)
    && Drawdown(AtDecision(b, f)) >= 3.0
    && b.ledger.tradesLastHour < 4
    && (b.ledger.lastTrade != 0.0 ==> f.now - b.ledger.lastTrade >= 900.0)
  }

  ghost predicate GoodFeed(f: Feed) {
    PositivePrices(PriceMap(f.views)) && f.fills && f.now - f.dataTs <= 600.0
  }

  lemma {:induction false} WalletIsValid(b: Book, f: Feed)
    requires GoodWallet(b.wallet, LIVE) && PositivePrices(PriceMap(f.views))
    ensures ValidWallet(b.wallet, PriceMap(f.views), LIVE.quotes)
  {
  }

  lemma {:induction false} BookFromWallet(b: Book, f: Feed)
    requires GoodWallet(b.wallet, LIVE) && PositivePrices(PriceMap(f.views))
    ensures var m, price := AtDecision(b, f), PriceMap(f.views);
            && JustMarked(m, price) && UniverseOnly(m.positions, LIVE) && m.stable >= 0.0
            && m.nav == StableCash(LIVE.quotes, b.wallet, price) + KeptValue(b.wallet, price, LIVE.quotes)
            && m.hwm == Max(b.ledger.hwm, m.nav)
            && forall h :: h in m.positions ==>
                 exists c :: c in b.wallet && c.sym == h.sym && c.qty == h.qty && Kept(c, price, LIVE.quotes)
  {
    var price := PriceMap(f.views);
    WalletIsValid(b, f);
    ChainPositionsSound(b.wallet, b.ledger.positions, price, LIVE.quotes, f.now);
    StableCashNonNegative(LIVE.quotes, b.wallet, price);
    BookIsKept(b.wallet, b.ledger.positions, price, LIVE.quotes, f.now);
    SyncKeepsUniverse(b.wallet, b.ledger.positions, price, f.now, LIVE);
  }

  lemma {:induction false} DecisionIsFlattening(b: Book, f: Feed)
    requires InFlattening(b, f) && GoodFeed(f)
    ensures Flattening(AtDecision(b, f), f)
  {
    BookFromWallet(b, f);
    var m, price := AtDecision(b, f), PriceMap(f.views);
    forall h | h in m.positions ensures h.sym in price && h.qty > 0.0 && Usd(h.qty, price[h.sym]) >= 1.0 {
      var c :| c in b.wallet && c.sym == h.sym && c.qty == h.qty && Kept(c, price, LIVE.quotes);
      if h.qty <= 0.0 {
        UsdOrdered(h.qty, 0.0, price[h.sym]);
      }
    }
  }

  /** The proceeds of an exit for at least two cents of a position worth at least a dollar are at least two cents. */
  lemma {:induction false} ProceedsAtLeast(qty: real, amount: real, px: real)
    requires px > 0.0 && Usd(qty, px) >= 1.0 && amount >= 0.02
    ensures Usd(Min(qty, Units(amount, px)), px) >= 0.02
  {
    UsdOfUnits(amount, px);
  }

  /** Where in the wallet a position comes from. */
  lemma {:induction false} WalletSource(b: Book, f: Feed, h: Holding) returns (i: nat)
    requires GoodWallet(b.wallet, LIVE) && PositivePrices(PriceMap(f.views)) && h in AtDecision(b, f).positions
    ensures i < |b.wallet| && b.wallet[i].sym == h.sym && b.wallet[i].qty == h.qty
    ensures Kept(b.wallet[i], PriceMap(f.views), LIVE.quotes)
  {
    BookFromWallet(b, f);
    var price := PriceMap(f.views);
    var c :| c in b.wallet && c.sym == h.sym && c.qty == h.qty && Kept(c, price, LIVE.quotes);
    i :| 0 <= i < |b.wallet| && b.wallet[i] == c;
  }

  /** The order of a pass over a non-empty book, seen from the wallet. */
  lemma {:induction false} PassOrder(b: Book, f: Feed) returns (i: nat)
    requires InFlattening(b, f) && GoodFeed(f) && AtDecision(b, f).positions != []
    ensures var m, price := AtDecision(b, f), PriceMap(f.views);
            && Orders(m, f, LIVE) && i < |b.wallet| && Kept(b.wallet[i], price, LIVE.quotes)
            && Ruled(m, f, LIVE).finalUsd >= 0.02
            && SaleOf(b.wallet, i, Proposal(m, f, LIVE), Ruled(m, f, LIVE).finalUsd, price, LIVE)
  {
    var m := AtDecision(b, f);
    DecisionIsFlattening(b, f);
    ExitProposed(m, f);
    ExitAllowed(m, f);
    i := WalletSource(b, f, m.positions[0]);
  }

  /** While the book is not empty, a pass takes at least two cents off the risky side and never raises NAV. */
  lemma {:induction false} PassSells(b: Book, f: Feed)
    requires InFlattening(b, f) && GoodFeed(f) && AtDecision(b, f).positions != []
    ensures var w', price := LivePass(b, f).wallet, PriceMap(f.views);
            && GoodWallet(w', LIVE)
            && WalletRisk(w', price, LIVE.quotes) <= WalletRisk(b.wallet, price, LIVE.quotes) - 0.02
            && StableCash(LIVE.quotes, w', price) + KeptValue(w', price, LIVE.quotes) <= AtDecision(b, f).nav
  {
    var m, price := AtDecision(b, f), PriceMap(f.views);
    var i := PassOrder(b, f);
    var amount := Ruled(m, f, LIVE).finalUsd;
    assert m.nav == StableCash(LIVE.quotes, b.wallet, price) + KeptValue(b.wallet, price, LIVE.quotes) by {
      BookFromWallet(b, f);
    }
    QuotesDistinct();
    SaleMovesValue(b.wallet, i, Proposal(m, f, LIVE), amount, price, LIVE);
    ProceedsAtLeast(b.wallet[i].qty, amount, PriceOrZero(price, b.wallet[i].sym));
  }

  lemma {:induction false} QuotesDistinct()
    ensures Distinct(LIVE.quotes)
  {
  }

  /** A book with nothing kept orders nothing and leaves the wallet alone. */
  lemma {:induction false} EmptyBookRests(b: Book, f: Feed)
    requires InFlattening(b, f) && AtDecision(b, f).positions == []
    ensures LivePass(b, f).wallet == b.wallet
    ensures !Orders(AtDecision(b, f), f, LIVE)
  {
    EmptyOrdersNothing(AtDecision(b, f), f);
  }

  lemma {:induction false} EmptyOrdersNothing(m: Ledger, f: Feed)
    requires Drawdown(m) >= 3.0 && m.positions == []
    ensures !Orders(m, f, LIVE)
  {
    StablecoinRung(m);
  }

  lemma {:induction false} EmptyBookStays(w: seq<Balance>, known: seq<Holding>, known': seq<Holding>, price: Prices,
                                          quotes: seq<Token>, now: real, now': real)
    ensures ChainPositions(w, known, price, quotes, now) == [] <==> ChainPositions(w, known', price, quotes, now') == []
  {
    if w != [] {
      EmptyBookStays(w[..|w| - 1], known, known', price, quotes, now, now');
    }
  }

  /** At fixed prices a pass keeps the loop in stablecoin mode, ready for the next one. */
  lemma {:induction false} PassKeepsFlattening(b: Book, f: Feed, next: Feed)
    requires InFlattening(b, f) && GoodFeed(f) && GoodFeed(next)
    requires PriceMap(next.views) == PriceMap(f.views) && next.now >= f.now + 900.0
    ensures InFlattening(LivePass(b, f), next)
  {
    var price := PriceMap(f.views);
    var m, b' := AtDecision(b, f), LivePass(b, f);
    BookFromWallet(b, f);
    if m.positions != [] {
      PassSells(b, f);
    } else {
      EmptyBookRests(b, f);
    }
    LedgerAfterPass(b, f);
    BookFromWallet(b', next);
    DrawdownGrows(m, AtDecision(b', next));
  }

  lemma {:induction false} DrawdownGrows(m: Ledger, later: Ledger)
    requires later.hwm == m.hwm && later.nav <= m.nav && Drawdown(m) >= 3.0
    ensures Drawdown(later) >= 3.0
  {
    DrawdownAgainstNav(m, 3.0);
    DrawdownAgainstNav(later, 3.0);
  }

  lemma {:induction false} TickedFields(m: Ledger, f: Feed)
    ensures var t := Ticked(m, f, LIVE);
            && t.hwm == m.hwm && t.tradesLastHour == m.tradesLastHour
            && (t.lastTrade == m.lastTrade || t.lastTrade == f.now)
  {
  }

  lemma {:induction false} TickNeverRaisesNav(m: Ledger, f: Feed)
    ensures MarkedNav(Ticked(m, f, LIVE), PriceMap(f.views)) <= MarkedNav(m, PriceMap(f.views))
  {
    if Orders(m, f, LIVE) && f.fills {
      var d, amount := Proposal(m, f, LIVE), Ruled(m, f, LIVE).finalUsd;
      FillConserves(Cleared(m, f.live), d, amount, PriceMap(f.views), f.now);
      FillDustSmall(Cleared(m, f.live), d, amount, PriceMap(f.views));
    }
  }

  lemma {:induction false} LedgerAfterPass(b: Book, f: Feed)
    requires InFlattening(b, f) && GoodFeed(f)
    ensures var m, l := AtDecision(b, f), LivePass(b, f).ledger;
            && l.hwm == m.hwm && l.tradesLastHour == b.ledger.tradesLastHour
            && (l.lastTrade == b.ledger.lastTrade || l.lastTrade == f.now)
  {
    var m := AtDecision(b, f);
    BookFromWallet(b, f);
    TickedFields(m, f);
    TickNeverRaisesNav(m, f);
  }

  /** Still in stablecoin mode at this pass, and the book is empty or the wallet's risk is at most this much. */
  ghost predicate Progress(b: Book, f: Feed, risk: real) {
    && InFlattening(b, f)
    && (AtDecision(b, f).positions == [] || WalletRisk(b.wallet, PriceMap(f.views), LIVE.quotes) <= risk)
  }

  lemma {:induction false} PassProgresses(b: Book, f: Feed, next: Feed, risk: real)
    requires Progress(b, f, risk) && GoodFeed(f) && GoodFeed(next)
    requires PriceMap(next.views) == PriceMap(f.views) && next.now >= f.now + 900.0
    ensures Progress(LivePass(b, f), next, risk - 0.02)
  {
    PassKeepsFlattening(b, f, next);
    if AtDecision(b, f).positions == [] {
      EmptyBookRests(b, f);
      EmptyBookStays(b.wallet, b.ledger.positions, LivePass(b, f).ledger.positions, PriceMap(f.views), LIVE.quotes,
                     f.now, next.now);
    } else {
      PassSells(b, f);
    }
  }

  lemma {:induction false} FeedsAreGood(price: Prices, feeds: seq<Feed>, n: nat)
    requires FixedMarket(price, feeds) && n < |feeds|
    ensures GoodFeed(feeds[n]) && PriceMap(feeds[n].views) == price
    ensures n > 0 ==> feeds[n].now >= feeds[n - 1].now + 900.0
  {
    if n > 0 {
      assert Spaced(feeds, n);
    }
  }

  lemma {:induction false} RunExtends(b: Book, feeds: seq<Feed>, n: nat)
    requires 0 < n <= |feeds|
    ensures LiveRun(b, feeds[..n]) == LivePass(LiveRun(b, feeds[..n - 1]), feeds[n - 1])
  {
    assert feeds[..n][..n - 1] == feeds[..n - 1];
  }

  /** What n sales of two cents leave of the risk. */
  function Left(risk: real, n: nat): real { risk - n as real * 0.02 }

  lemma {:induction false} LeftStep(risk: real, n: nat)
    requires n > 0
    ensures Left(risk, n) == Left(risk, n - 1) - 0.02
  {
  }

  lemma {:induction false} ProgressAtStart(b: Book, f: Feed)
    requires InFlattening(b, f)
    ensures Progress(b, f, Left(WalletRisk(b.wallet, PriceMap(f.views), LIVE.quotes), 0))
  {
  }

  /** After n passes: still in stablecoin mode, and either the book is empty or n sales of two cents have been made. */
  lemma {:induction false} FlatteningProgress(b: Book, price: Prices, feeds: seq<Feed>, n: nat)
    requires FixedMarket(price, feeds) && n < |feeds| && InFlattening(b, feeds[0])
    ensures Progress(LiveRun(b, feeds[..n]), feeds[n], Left(WalletRisk(b.wallet, price, LIVE.quotes), n))
  {
    FeedsAreGood(price, feeds, n);
    if n == 0 {
      assert feeds[..0] == [];
      ProgressAtStart(b, feeds[0]);
    } else {
      var risk := WalletRisk(b.wallet, price, LIVE.quotes);
      FlatteningProgress(b, price, feeds, n - 1);
      FeedsAreGood(price, feeds, n - 1);
      RunExtends(b, feeds, n);
      LeftStep(risk, n);
      PassProgresses(LiveRun(b, feeds[..n - 1]), feeds[n - 1], feeds[n], Left(risk, n - 1));
    }
  }

  lemma {:induction false} RiskCoversKept(w: seq<Balance>, price: Prices, quotes: seq<Token>)
    requires forall i :: 0 <= i < |w| ==> w[i].qty >= 0.0
    requires forall t :: t in price ==> price[t] >= 0.0
    ensures WalletRisk(w, price, quotes) >= KeptValue(w, price, quotes)
  {
    KeptUnderstates(w, price, quotes);
  }

  /**
   * Flattening terminates. In stablecoin mode, reconciled, at fixed positive prices with every swap filling and ticks
   * at least 900 seconds apart, the book is empty at pass n as soon as n sales of two cents would exhaust the wallet's
   * risk, and it stays empty.
   */
  lemma {:induction false} FlatteningTerminates(b: Book, price: Prices, feeds: seq<Feed>, n: nat)
    requires FixedMarket(price, feeds) && n < |feeds| && InFlattening(b, feeds[0])
    requires n as real * 0.02 >= WalletRisk(b.wallet, price, LIVE.quotes)
    ensures AtDecision(LiveRun(b, feeds[..n]), feeds[n]).positions == []
  {
    FlatteningProgress(b, price, feeds, n);
    var later := LiveRun(b, feeds[..n]);
    var m := AtDecision(later, feeds[n]);
    if m.positions != [] {
      DecisionIsFlattening(later, feeds[n]);
      BookIsKept(later.wallet, later.ledger.positions, price, LIVE.quotes, feeds[n].now);
      RiskyAtLeastCount(m.positions, price);
      RiskCoversKept(later.wallet, price, LIVE.quotes);
      assert false;
    }
  }

  // ------------------------------------------------------------ without reconciliation

  lemma {:induction false} CentsPositive(x: real)
    requires x >= 0.0
    ensures Cents(x) > 0.0 <==> x > 0.005
  {
    var n := RoundHalfEven(x * 100.0);
    assert n >= 0;
    if x > 0.005 {
      assert n >= 1;
    } else {
      assert x * 100.0 <= 0.5;
      assert n == 0;
    }
  }

  /**
   * In stablecoin mode the first position is proposed for exit at every tick, and the proposal is a trade exactly when
   * the position is worth more than half a cent. A smaller residue is proposed for ever and never sold, so only
   * reconciliation, which drops it, lets the book empty.
   */
  lemma {:induction false} ExitIsTradeIff(m: Ledger, f: Feed)
    requires Drawdown(m) >= 3.0 && m.positions != []
    requires var h := m.positions[0]; h.sym in PriceMap(f.views) && h.qty > 0.0 && PriceMap(f.views)[h.sym] > 0.0
    ensures var h := m.positions[0];
            && Proposal(m, f, LIVE).side == Sell && Proposal(m, f, LIVE).fromToken == h.sym
            && (Proposal(m, f, LIVE).IsTrade() <==> Usd(h.qty, PriceMap(f.views)[h.sym]) > 0.005)
            && (Usd(h.qty, PriceMap(f.views)[h.sym]) <= 0.005 ==> Ticked(m, f, LIVE) == m.(pending := None))
  {
    var h := m.positions[0];
    StablecoinRung(m);
    assert ExitDue(h, PriceMap(f.views), StablecoinMode, LIVE, f.now);
    assert FirstExit(m.positions, PriceMap(f.views), StablecoinMode, LIVE, f.now) == 0;
    UsdNonNegative(h.qty, PriceMap(f.views)[h.sym]);
    CentsPositive(Usd(h.qty, PriceMap(f.views)[h.sym]));
  }
}
