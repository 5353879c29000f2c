// The reconciled live loop over whole runs: the drawdown gate with the wallet on chain as the truth.
module ReconciledRun {
  import opened Types
  import opened Money
  import opened Survival
  import opened Core
  import opened Fills
  import opened Adherence
  import opened DrawdownBound
  import opened WholeRun
  import opened Flatten
  import Engine
  import Ladder
  import Runs

  // ------------------------------------------------------------ the wallet at par

  /** Stables in dollars at par. */
  function Cash(w: seq<Balance>): real { StableCash(LIVE.quotes, w, map[]) }

  function Risk(w: seq<Balance>, price: Prices): real { WalletRisk(w, price, LIVE.quotes) }

  ghost predicate AtPar(price: Prices) { forall s :: s in LIVE.quotes ==> StablePrice(price, s) == 1.0 }

  lemma {:induction false} CashAtPar(w: seq<Balance>, price: Prices)
    requires AtPar(price)
    ensures StableCash(LIVE.quotes, w, price) == Cash(w)
  {
    SumSame(LIVE.quotes, (s: Token) => Usd(BalanceOf(w, s), StablePrice(price, s)),
            (s: Token) => Usd(BalanceOf(w, s), StablePrice(map[], s)));
  }

  // ------------------------------------------------------------ shedding, balance by balance

  /** The share of today's prices that a later price has to keep. */
  const SHARE := 0.73

  function Floor(p0: Prices, t: Token): real { Usd(SHARE, PriceOrZero(p0, t)) }

  /** What one balance has given up since the base, at the floor. */
  function GivenUp(b: Balance, c: Balance, p0: Prices): real {
    if b.sym in LIVE.quotes then 0.0 else Usd(b.qty - c.qty, Floor(p0, b.sym))
  }

  function ShedSum(base: seq<Balance>, w: seq<Balance>, p0: Prices): real
    requires |base| == |w|
  {
    if base == [] then 0.0
    else
      var n := |base| - 1;
      ShedSum(base[..n], w[..n], p0) + GivenUp(base[n], w[n], p0)
  }

  /** The same symbols, no risky balance grown, and what was given up paid for at the floor or better. */
  ghost predicate OnlySheds(base: seq<Balance>, w: seq<Balance>, p0: Prices) {
    && |base| == |w|
    && (forall i :: 0 <= i < |w| ==> w[i].sym == base[i].sym)
    && (forall i :: 0 <= i < |w| && w[i].sym !in LIVE.quotes ==> 0.0 <= w[i].qty <= base[i].qty)
    && Cash(w) >= Cash(base) + ShedSum(base, w, p0)
  }

  /** No held risky token is under its floor. */
  ghost predicate AboveFloor(w: seq<Balance>, p0: Prices, price: Prices) {
    forall i :: 0 <= i < |w| && w[i].sym !in LIVE.quotes && w[i].qty > 0.0 ==>
      PriceOrZero(price, w[i].sym) >= Floor(p0, w[i].sym)
  }

  lemma {:induction false} ShedSumNothing(w: seq<Balance>, p0: Prices)
    ensures ShedSum(w, w, p0) == 0.0
  {
    if w != [] {
      var n := |w| - 1;
      ShedSumNothing(w[..n], p0);
      UsdSplit(w[n].qty, w[n].qty, Floor(p0, w[n].sym));
    }
  }

  lemma {:induction false} ShedsNothing(w: seq<Balance>, p0: Prices)
    requires forall i :: 0 <= i < |w| ==> w[i].qty >= 0.0
    ensures OnlySheds(w, w, p0)
  {
    ShedSumNothing(w, p0);
  }

  lemma {:induction false} ShedSumUpdate(base: seq<Balance>, w: seq<Balance>, i: nat, b: Balance, p0: Prices)
    requires |base| == |w| && i < |w|
    ensures ShedSum(base, w[i := b], p0) == ShedSum(base, w, p0) - GivenUp(base[i], w[i], p0) + GivenUp(base[i], b, p0)
  {
    var n := |w| - 1;
    if i == n {
      assert w[i := b][..n] == w[..n];
    } else {
      assert w[i := b][..n] == w[..n][i := b];
      ShedSumUpdate(base[..n], w[..n], i, b, p0);
    }
  }

  lemma {:induction false} KeepsFloor(b: Balance, c: Balance, p0: Prices, price: Prices)
    requires c.sym == b.sym && b.sym !in LIVE.quotes && c.qty >= 0.0
    requires c.qty > 0.0 ==> PriceOrZero(price, c.sym) >= Floor(p0, c.sym)
    ensures RiskyOf(c, price, LIVE.quotes) + GivenUp(b, c, p0) >= Usd(SHARE, RiskyOf(b, p0, LIVE.quotes))
  {
    var floor := Floor(p0, b.sym);
    UsdSplit(b.qty, c.qty, floor);
    ShareOfProduct(SHARE, b.qty, PriceOrZero(p0, b.sym));
    if c.qty > 0.0 {
      ProductOrdered(floor, PriceOrZero(price, c.sym), c.qty);
    }
  }

  /** What is held is worth at least the base at the floor, less what was given up at the floor. */
  lemma {:induction false} RiskKeepsFloor(base: seq<Balance>, w: seq<Balance>, p0: Prices, price: Prices)
    requires |base| == |w| && (forall i :: 0 <= i < |w| ==> w[i].sym == base[i].sym)
    requires forall i :: 0 <= i < |w| && w[i].sym !in LIVE.quotes ==> w[i].qty >= 0.0
    requires AboveFloor(w, p0, price)
    ensures Risk(w, price) + ShedSum(base, w, p0) >= Usd(SHARE, Risk(base, p0))
  {
    if w != [] {
      var n := |w| - 1;
      assert forall i :: 0 <= i < n ==> w[..n][i] == w[i] && base[..n][i] == base[i];
      RiskKeepsFloor(base[..n], w[..n], p0, price);
      Distribute(Risk(base[..n], p0), RiskyOf(base[n], p0, LIVE.quotes), SHARE);
      if w[n].sym !in LIVE.quotes {
        KeepsFloor(base[n], w[n], p0, price);
      }
    }
  }

  /** The value of a wallet that only sheds never falls under base cash plus the base's risk at the floor. */
  lemma {:induction false} ValueKeepsFloor(base: seq<Balance>, w: seq<Balance>, p0: Prices, price: Prices)
    requires OnlySheds(base, w, p0) && AboveFloor(w, p0, price)
    ensures Cash(w) + Risk(w, price) >= Cash(base) + Usd(SHARE, Risk(base, p0))
  {
    RiskKeepsFloor(base, w, p0, price);
  }

  // ------------------------------------------------------------ what an order does to the wallet

  lemma {:induction false} SaleSwap(w: seq<Balance>, i: nat, d: Decision, amount: real, price: Prices)
    requires SaleOf(w, i, d, amount, price, LIVE) && Kept(w[i], price, LIVE.quotes) && AtPar(price)
    ensures var w' := Swapped(w, d, amount, price, LIVE.quotes);
            && GoodWallet(w', LIVE) && Cash(w') + Risk(w', price) == Cash(w) + Risk(w, price)
            && Risk(w', price) <= Risk(w, price)
  {
    QuotesDistinct();
    SaleMovesValue(w, i, d, amount, price, LIVE);
    CashAtPar(w, price);
    CashAtPar(Swapped(w, d, amount, price, LIVE.quotes), price);
  }

  /** A sale above the floor keeps the wallet shedding. */
  lemma {:induction false} SaleKeepsShedding(base: seq<Balance>, w: seq<Balance>, i: nat, d: Decision, amount: real,
                                             price: Prices, p0: Prices)
    requires SaleOf(w, i, d, amount, price, LIVE) && Kept(w[i], price, LIVE.quotes) && AtPar(price)
    requires OnlySheds(base, w, p0) && AboveFloor(w, p0, price)
    ensures OnlySheds(base, Swapped(w, d, amount, price, LIVE.quotes), p0)
  {
    var px, units := PriceOrZero(price, w[i].sym), SaleUnits(w, i, amount, price);
    SaleRaisesCash(w, i, d, amount, price);
    var j := SwapIsTwoUpdates(w, i, d, amount, price, LIVE);
    DrawnGivesUp(base[i], w[i], units, p0, price);
    UpdatesShed(base, w, i, Drawn(w, i, units), j, Credited(w[j], Usd(units, px), price), p0);
  }

  lemma {:induction false} SaleRaisesCash(w: seq<Balance>, i: nat, d: Decision, amount: real, price: Prices)
    requires SaleOf(w, i, d, amount, price, LIVE) && Kept(w[i], price, LIVE.quotes) && AtPar(price)
    ensures var units := SaleUnits(w, i, amount, price);
            && 0.0 <= units <= w[i].qty
            && Cash(Swapped(w, d, amount, price, LIVE.quotes)) == Cash(w) + Usd(units, PriceOrZero(price, w[i].sym))
  {
    QuotesDistinct();
    SaleMovesValue(w, i, d, amount, price, LIVE);
    CashAtPar(w, price);
    CashAtPar(Swapped(w, d, amount, price, LIVE.quotes), price);
    QuotientNonNegative(amount, PriceOrZero(price, w[i].sym));
  }

  /** A risky balance drawn down and a stable one credited, for at least what the draw gives up. */
  lemma {:induction false} UpdatesShed(base: seq<Balance>, w: seq<Balance>, i: nat, drawn: Balance, j: nat,
                                       credited: Balance, p0: Prices)
    requires OnlySheds(base, w, p0) && i < |w| && j < |w| && i != j
    requires w[i].sym !in LIVE.quotes && drawn.sym == w[i].sym && 0.0 <= drawn.qty <= w[i].qty
    requires w[j].sym in LIVE.quotes && credited.sym == w[j].sym
    requires Cash(w[i := drawn][j := credited]) - Cash(w) >= GivenUp(base[i], drawn, p0) - GivenUp(base[i], w[i], p0)
    ensures OnlySheds(base, w[i := drawn][j := credited], p0)
  {
    ShedSumUpdate(base, w, i, drawn, p0);
    ShedSumUpdate(base, w[i := drawn], j, credited, p0);
  }

  lemma {:induction false} DrawnGivesUp(b: Balance, c: Balance, units: real, p0: Prices, price: Prices)
    requires c.sym == b.sym && c.sym !in LIVE.quotes && 0.0 <= units <= c.qty
    requires c.qty > 0.0 ==> PriceOrZero(price, c.sym) >= Floor(p0, c.sym)
    ensures GivenUp(b, c.(qty := c.qty - units), p0) - GivenUp(b, c, p0) <= Usd(units, PriceOrZero(price, c.sym))
  {
    var floor := Floor(p0, b.sym);
    assert b.qty - (c.qty - units) == (b.qty - c.qty) + units;
    UsdSplit(b.qty - c.qty, units, floor);
    if c.qty > 0.0 {
      ProductOrdered(floor, PriceOrZero(price, c.sym), units);
    }
  }

  /** A purchase with the first quote: cash turns into risk of the same value, at most the amount. */
  lemma {:induction false} BuySwap(w: seq<Balance>, d: Decision, amount: real, price: Prices)
    requires GoodWallet(w, LIVE) && AtPar(price) && amount >= 0.0
    requires d.fromToken == LIVE.quotes[0] && d.toToken !in LIVE.quotes && PriceOrZero(price, d.toToken) > 0.0
    ensures var w' := Swapped(w, d, amount, price, LIVE.quotes);
            && GoodWallet(w', LIVE) && Cash(w') + Risk(w', price) == Cash(w) + Risk(w, price)
            && Risk(w', price) <= Risk(w, price) + amount
  {
    if BalanceIndex(w, d.toToken) < |w| {
      var i, j, paid, got := BuyIsTwoUpdates(w, d, amount, price);
      BuyUpdates(w, i, j, paid, got, amount, price);
    } else {
      BuyMisses(w, d, amount, price);
    }
  }

  lemma {:induction false} BuyMisses(w: seq<Balance>, d: Decision, amount: real, price: Prices)
    requires BalanceIndex(w, d.toToken) == |w|
    ensures Swapped(w, d, amount, price, LIVE.quotes) == w
  {
  }

  /** A stable balance pays at most the amount, and a risky one grows by what that is worth. */
  ghost predicate Exchange(w: seq<Balance>, i: nat, j: nat, paid: Balance, got: Balance, amount: real, price: Prices) {
    && i < |w| && j < |w| && i != j && w[i].sym in LIVE.quotes && w[j].sym !in LIVE.quotes
    && paid.sym == w[i].sym && 0.0 <= paid.qty && 0.0 <= w[i].qty - paid.qty <= amount
    && got.sym == w[j].sym && got.qty >= 0.0
    && RiskyOf(got, price, LIVE.quotes) == RiskyOf(w[j], price, LIVE.quotes) + (w[i].qty - paid.qty)
  }

  lemma {:induction false} BuyIsTwoUpdates(w: seq<Balance>, d: Decision, amount: real, price: Prices)
    returns (i: nat, j: nat, paid: Balance, got: Balance)
    requires GoodWallet(w, LIVE) && AtPar(price) && amount >= 0.0
    requires d.fromToken == LIVE.quotes[0] && d.toToken !in LIVE.quotes && PriceOrZero(price, d.toToken) > 0.0
    requires BalanceIndex(w, d.toToken) < |w|
    ensures Exchange(w, i, j, paid, got, amount, price)
    ensures Swapped(w, d, amount, price, LIVE.quotes) == w[i := paid][j := got]
  {
    i, j := BalanceIndex(w, d.fromToken), BalanceIndex(w, d.toToken);
    var px, cost := PriceOrZero(price, d.toToken), Min(w[i].qty, amount);
    paid, got := w[i].(qty := w[i].qty - cost), w[j].(qty := w[j].qty + Units(cost, px));
    ParSwap(w, d, amount, price, i, j);
    GotIsWorth(w[j], cost, price);
  }

  lemma {:induction false} ParSwap(w: seq<Balance>, d: Decision, amount: real, price: Prices, i: nat, j: nat)
    requires AtPar(price) && d.fromToken == LIVE.quotes[0]
    requires i == BalanceIndex(w, d.fromToken) < |w| && j == BalanceIndex(w, d.toToken) < |w| && i != j
    requires d.toToken !in LIVE.quotes && PriceOrZero(price, d.toToken) > 0.0
    ensures var cost := Min(w[i].qty, amount);
            Swapped(w, d, amount, price, LIVE.quotes)
            == w[i := w[i].(qty := w[i].qty - cost)]
                [j := w[j].(qty := w[j].qty + Units(cost, PriceOrZero(price, d.toToken)))]
  {
    var cost := Min(w[i].qty, amount);
    assert SwapPrice(price, LIVE.quotes, d.fromToken) == 1.0;
    assert Units(amount, 1.0) == amount && Usd(cost, 1.0) == cost;
  }

  lemma {:induction false} GotIsWorth(b: Balance, cost: real, price: Prices)
    requires PriceOrZero(price, b.sym) > 0.0 && b.sym !in LIVE.quotes && cost >= 0.0
    ensures var got := b.(qty := b.qty + Units(cost, PriceOrZero(price, b.sym)));
            Units(cost, PriceOrZero(price, b.sym)) >= 0.0
            && RiskyOf(got, price, LIVE.quotes) == RiskyOf(b, price, LIVE.quotes) + cost
  {
    var px := PriceOrZero(price, b.sym);
    UsdOfUnits(cost, px);
    QuotientNonNegative(cost, px);
    UsdSplit(b.qty, Units(cost, px), px);
  }

  lemma {:induction false} BuyUpdates(w: seq<Balance>, i: nat, j: nat, paid: Balance, got: Balance, amount: real,
                                      price: Prices)
    requires GoodWallet(w, LIVE) && Exchange(w, i, j, paid, got, amount, price)
    ensures var w' := w[i := paid][j := got];
            && GoodWallet(w', LIVE) && Cash(w') + Risk(w', price) == Cash(w) + Risk(w, price)
            && Risk(w', price) <= Risk(w, price) + amount
  {
    PayMovesCash(w, i, paid, price);
    GotMovesRisk(w[i := paid], j, got, price);
  }

  lemma {:induction false} PayMovesCash(w: seq<Balance>, i: nat, paid: Balance, price: Prices)
    requires GoodWallet(w, LIVE) && i < |w| && w[i].sym in LIVE.quotes && paid.sym == w[i].sym && paid.qty >= 0.0
    ensures var w' := w[i := paid];
            && GoodWallet(w', LIVE) && Risk(w', price) == Risk(w, price)
            && Cash(w') == Cash(w) - (w[i].qty - paid.qty)
  {
    QuotesDistinct();
    GoodAfterUpdate(w, i, paid, LIVE);
    RiskUpdate(w, i, paid, price, LIVE.quotes);
    StableCashUpdate(LIVE.quotes, w, i, paid, map[]);
    assert Usd(paid.qty - w[i].qty, 1.0) == paid.qty - w[i].qty;
  }

  lemma {:induction false} GotMovesRisk(w: seq<Balance>, j: nat, got: Balance, price: Prices)
    requires GoodWallet(w, LIVE) && j < |w| && w[j].sym !in LIVE.quotes && got.sym == w[j].sym && got.qty >= 0.0
    ensures var w' := w[j := got];
            && GoodWallet(w', LIVE) && Cash(w') == Cash(w)
            && Risk(w', price) == Risk(w, price) - RiskyOf(w[j], price, LIVE.quotes) + RiskyOf(got, price, LIVE.quotes)
  {
    QuotesDistinct();
    GoodAfterUpdate(w, j, got, LIVE);
    RiskUpdate(w, j, got, price, LIVE.quotes);
    StableCashUpdate(LIVE.quotes, w, j, got, map[]);
  }

  // ------------------------------------------------------------ what a decision sees of the wallet

  /** Symbols of the risky balances. */
  function RiskySyms(w: seq<Balance>): seq<Token> {
    if w == [] then []
    else
      var n := |w| - 1;
      if w[n].sym in LIVE.quotes then RiskySyms(w[..n]) else RiskySyms(w[..n]) + [w[n].sym]
  }

  lemma {:induction false} RiskySymsOf(w: seq<Balance>)
    requires DistinctBalances(w)
    requires forall i :: 0 <= i < |w| ==> w[i].sym in LIVE.universe || w[i].sym in LIVE.quotes
    ensures |RiskySyms(w)| == RiskyCount(w, LIVE.quotes) && Distinct(RiskySyms(w))
    ensures forall t :: t in RiskySyms(w) ==> t in LIVE.universe && exists i :: 0 <= i < |w| && w[i].sym == t
  {
    if w != [] {
      RiskySymsOf(w[..|w| - 1]);
    }
  }

  const MAX_DUST := 4.0

  lemma {:induction false} AtMostFourRisky(w: seq<Balance>)
    requires GoodWallet(w, LIVE)
    ensures RiskyCount(w, LIVE.quotes) as real <= MAX_DUST
  {
    RiskySymsOf(w);
    DistinctWithin(RiskySyms(w), LIVE.universe);
  }

  ghost predicate SaneMarket(price: Prices) { SanePrices(price) && AtPar(price) }

  /**
   * The decision's value and risk against the wallet's: short by the dust, less than a dollar for each of four tokens.
   */
  lemma {:induction false} DecisionNearsWallet(b: Book, f: Feed)
    requires GoodWallet(b.wallet, LIVE) && SaneMarket(PriceMap(f.views))
    ensures var m, price := AtDecision(b, f), PriceMap(f.views);
            var risky := RiskyValue(m.positions, price);
            && JustMarked(m, price) && UniverseOnly(m.positions, LIVE) && m.hwm == Max(b.ledger.hwm, m.nav)
            && m.nav == Cash(b.wallet) + risky && 0.0 <= Risk(b.wallet, price) - risky <= MAX_DUST
  {
    var price := PriceMap(f.views);
    BookFromWallet(b, f);
    BookIsKept(b.wallet, b.ledger.positions, price, LIVE.quotes, f.now);
    KeptUnderstates(b.wallet, price, LIVE.quotes);
    AtMostFourRisky(b.wallet);
    CashAtPar(b.wallet, price);
  }

  // ------------------------------------------------------------ the order of a pass, seen from the wallet

  lemma {:induction false} PassSale(b: Book, f: Feed) returns (i: nat)
    requires GoodWallet(b.wallet, LIVE) && SaneMarket(PriceMap(f.views))
    requires Orders(AtDecision(b, f), f, LIVE) && Proposal(AtDecision(b, f), f, LIVE).side == Sell
    ensures var m, price := AtDecision(b, f), PriceMap(f.views);
            i < |b.wallet| && Kept(b.wallet[i], price, LIVE.quotes)
            && SaleOf(b.wallet, i, Proposal(m, f, LIVE), Ruled(m, f, LIVE).finalUsd, price, LIVE)
  {
    var m := AtDecision(b, f);
    var d := Proposal(m, f, LIVE);
    DecisionNearsWallet(b, f);
    CommittedPolicyClosed();
    LiveCapsNonNegative();
    ProposalInPolicy(m, f, LIVE);
    AllowedAmountNonNegative(d, EngineView(m, f), Max(0.0, f.now - f.dataTs), LIVE);
    HoldsIsSymbol(m.positions, d.fromToken);
    i := WalletSource(b, f, m.positions[IndexOf(m.positions, d.fromToken)]);
  }

  /**
   * A buy of a pass spends the first quote, and leaves the wallet's risk within 12% of NAV, half a cent and the dust.
   */
  lemma {:induction false} PassBuy(b: Book, f: Feed)
    requires GoodWallet(b.wallet, LIVE) && SaneMarket(PriceMap(f.views)) && AtDecision(b, f).nav > 0.0
    requires Orders(AtDecision(b, f), f, LIVE) && Proposal(AtDecision(b, f), f, LIVE).side == Buy
    ensures var m, price := AtDecision(b, f), PriceMap(f.views);
            var d, amount := Proposal(m, f, LIVE), Ruled(m, f, LIVE).finalUsd;
            && amount >= 0.0 && d.fromToken == LIVE.quotes[0] && d.toToken !in LIVE.quotes
            && PriceOrZero(price, d.toToken) > 0.0
            && RiskyValue(m.positions, price) + amount <= 0.12 * m.nav + 0.005
  {
    var m := AtDecision(b, f);
    var d := Proposal(m, f, LIVE);
    DecisionNearsWallet(b, f);
    CommittedPolicyClosed();
    LiveCapsNonNegative();
    ProposalInPolicy(m, f, LIVE);
    AllowedAmountNonNegative(d, EngineView(m, f), Max(0.0, f.now - f.dataTs), LIVE);
    GapCovers(m, f, d, LIVE);
    assert Usd(LIVE.risk.maxRisky, m.nav) == 0.12 * m.nav;
  }

  /** A pass under 2%: the wallet keeps its value, and its risk is within 12% of NAV, half a cent and the dust. */
  lemma {:induction false} PassKeepsValue(b: Book, f: Feed)
    requires GoodWallet(b.wallet, LIVE) && SaneMarket(PriceMap(f.views)) && AtDecision(b, f).nav > 0.0
    requires RiskyValue(AtDecision(b, f).positions, PriceMap(f.views)) <= 0.12 * AtDecision(b, f).nav
    ensures var m, price, w, w' := AtDecision(b, f), PriceMap(f.views), b.wallet, LivePass(b, f).wallet;
            && GoodWallet(w', LIVE) && Cash(w') + Risk(w', price) == Cash(w) + Risk(w, price)
            && Risk(w', price) <= 0.12 * m.nav + 0.005 + (Risk(w, price) - RiskyValue(m.positions, price))
  {
    var m, price := AtDecision(b, f), PriceMap(f.views);
    if Orders(m, f, LIVE) && f.fills {
      var d, amount := Proposal(m, f, LIVE), Ruled(m, f, LIVE).finalUsd;
      if d.side == Buy {
        PassBuy(b, f);
        BuySwap(b.wallet, d, amount, price);
      } else {
        var i := PassSale(b, f);
        SaleSwap(b.wallet, i, d, amount, price);
      }
    }
  }

  /** A pass from 2% down keeps the wallet shedding. */
  lemma {:induction false} PassKeepsShedding(b: Book, f: Feed, base: seq<Balance>, p0: Prices)
    requires GoodWallet(b.wallet, LIVE) && SaneMarket(PriceMap(f.views))
    requires Drawdown(AtDecision(b, f)) >= NO_RISK_PCT
    requires OnlySheds(base, b.wallet, p0) && AboveFloor(b.wallet, p0, PriceMap(f.views))
    ensures GoodWallet(LivePass(b, f).wallet, LIVE) && OnlySheds(base, LivePass(b, f).wallet, p0)
  {
    var m, price := AtDecision(b, f), PriceMap(f.views);
    if Orders(m, f, LIVE) && f.fills {
      var d, amount := Proposal(m, f, LIVE), Ruled(m, f, LIVE).finalUsd;
      DecisionNearsWallet(b, f);
      CommittedPolicyClosed();
      LiveCapsNonNegative();
      Ladder.CommittedRungs(Drawdown(m));
      DeRiskingOrdersSell(m, f, LIVE);
      var i := PassSale(b, f);
      SaleSwap(b.wallet, i, d, amount, price);
      SaleKeepsShedding(base, b.wallet, i, d, amount, price, p0);
    }
  }

  // ------------------------------------------------------------ the whole run

  /** The loop and its wallet, with the wallet and prices after the last pass that decided under 2% drawdown. */
  datatype ChainEpisode = ChainEpisode(book: Book, base: seq<Balance>, basePrice: Prices)

  function ChainNext(e: ChainEpisode, f: Feed): ChainEpisode {
    var after := LivePass(e.book, f);
    if Drawdown(AtDecision(e.book, f)) < NO_RISK_PCT then ChainEpisode(after, after.wallet, PriceMap(f.views))
    else ChainEpisode(after, e.base, e.basePrice)
  }

  function ChainPlay(e: ChainEpisode, feeds: seq<Feed>): ChainEpisode { Runs.Fold(ChainNext, e, feeds) }

  /**
   * What the market must grant at each pass: sane prices with stables at par; under 2% drawdown, exposure that has not
   * drifted over the 12% cap; from 2% on, no held price more than 27% below its mark at the last pass under 2%.
   */
  ghost predicate OrderlyPass(e: ChainEpisode, f: Feed) {
    var m, price := AtDecision(e.book, f), PriceMap(f.views);
    && SaneMarket(price)
    && if Drawdown(m) < NO_RISK_PCT then RiskyValue(m.positions, price) <= 0.12 * m.nav
       else AboveFloor(e.book.wallet, e.basePrice, price)
  }

  /** Cash and the risk at the floor of a wallet, against the peak. */
  ghost predicate Cushioned(base: seq<Balance>, p0: Prices, hwm: real) {
    hwm >= START_NAV && Cash(base) + Usd(SHARE, Risk(base, p0)) >= 0.9482 * hwm - 0.002
  }

  ghost predicate SteadyOnChain(e: ChainEpisode) {
    && GoodWallet(e.book.wallet, LIVE) && OnlySheds(e.base, e.book.wallet, e.basePrice)
    && Cushioned(e.base, e.basePrice, e.book.ledger.hwm)
  }

  lemma {:induction false} AfterTick(b: Book, f: Feed)
    requires GoodWallet(b.wallet, LIVE) && SaneMarket(PriceMap(f.views))
    ensures var m, l := AtDecision(b, f), LivePass(b, f).ledger;
            l.hwm == m.hwm && m.nav - 0.001 <= l.nav <= m.nav
  {
    DecisionNearsWallet(b, f);
    TickNav(AtDecision(b, f), f);
    TickShape(AtDecision(b, f), f);
  }

  lemma {:induction false} CushionArithmetic(nav: real, cash: real, risk: real, dust: real, hwm: real)
    requires cash + risk == nav + dust && nav > 0.98 * hwm && hwm >= START_NAV && 0.0 <= dust
    requires risk <= 0.12 * nav + 0.005 + dust
    ensures cash + Usd(SHARE, risk) >= 0.9482 * hwm - 0.002
  {
    assert Usd(SHARE, risk) == 0.73 * risk;
  }

  /** What is left after a pass under 2% is cushioned again. */
  lemma {:induction false} PassCushions(b: Book, f: Feed)
    requires GoodWallet(b.wallet, LIVE) && SaneMarket(PriceMap(f.views))
    requires AtDecision(b, f).hwm >= START_NAV && AtDecision(b, f).nav > 0.98 * AtDecision(b, f).hwm
    requires RiskyValue(AtDecision(b, f).positions, PriceMap(f.views)) <= 0.12 * AtDecision(b, f).nav
    ensures GoodWallet(LivePass(b, f).wallet, LIVE)
    ensures Cushioned(LivePass(b, f).wallet, PriceMap(f.views), AtDecision(b, f).hwm)
  {
    var m, price, w' := AtDecision(b, f), PriceMap(f.views), LivePass(b, f).wallet;
    DecisionNearsWallet(b, f);
    PassKeepsValue(b, f);
    CushionArithmetic(m.nav, Cash(w'), Risk(w', price), Risk(b.wallet, price) - RiskyValue(m.positions, price), m.hwm);
  }

  lemma {:induction false} UnderTwo(l: Ledger)
    requires l.hwm >= START_NAV && Drawdown(l) < NO_RISK_PCT
    ensures l.nav > 0.98 * l.hwm
  {
    DrawdownAgainstNav(l, NO_RISK_PCT);
  }

  lemma {:induction false} RebasesUnderTwo(e: ChainEpisode, f: Feed)
    requires SteadyOnChain(e) && OrderlyPass(e, f) && Drawdown(AtDecision(e.book, f)) < NO_RISK_PCT
    ensures SteadyOnChain(ChainNext(e, f)) && Drawdown(ChainNext(e, f).book.ledger) < GATE_PCT
  {
    var b, m, price := e.book, AtDecision(e.book, f), PriceMap(f.views);
    UnderTwo(m);
    PassCushions(b, f);
    AfterTick(b, f);
    ShedsNothing(LivePass(b, f).wallet, price);
    GateHolds(LivePass(b, f).ledger);
  }

  lemma {:induction false} ShedsFromTwo(e: ChainEpisode, f: Feed)
    requires SteadyOnChain(e) && OrderlyPass(e, f) && Drawdown(AtDecision(e.book, f)) >= NO_RISK_PCT
    ensures SteadyOnChain(ChainNext(e, f)) && Drawdown(ChainNext(e, f).book.ledger) < GATE_PCT
    ensures Drawdown(AtDecision(e.book, f)) < GATE_PCT
  {
    var b, m, price := e.book, AtDecision(e.book, f), PriceMap(f.views);
    DecisionNearsWallet(b, f);
    PeakStands(Synced(b.ledger, b.wallet, price, LIVE.quotes, f.now), price);
    ValueKeepsFloor(e.base, b.wallet, e.basePrice, price);
    GateHolds(m);
    AfterTick(b, f);
    GateHolds(LivePass(b, f).ledger);
    PassKeepsShedding(b, f, e.base, e.basePrice);
  }

  lemma {:induction false} PassStaysUnderGate(e: ChainEpisode, f: Feed)
    requires SteadyOnChain(e) && OrderlyPass(e, f)
    ensures SteadyOnChain(ChainNext(e, f)) && Drawdown(ChainNext(e, f).book.ledger) < GATE_PCT
    ensures Drawdown(AtDecision(e.book, f)) < GATE_PCT
  {
    if Drawdown(AtDecision(e.book, f)) < NO_RISK_PCT {
      RebasesUnderTwo(e, f);
    } else {
      ShedsFromTwo(e, f);
    }
  }

  /** A start with START_NAV or more in stables, nothing risky, and a peak between START_NAV and that. */
  ghost predicate AllStable(b: Book) {
    && GoodWallet(b.wallet, LIVE) && START_NAV <= b.ledger.hwm <= Cash(b.wallet)
    && forall i :: 0 <= i < |b.wallet| && b.wallet[i].sym !in LIVE.quotes ==> b.wallet[i].qty == 0.0
  }

  lemma {:induction false} NoRisk(w: seq<Balance>)
    ensures Risk(w, map[]) == 0.0
  {
    if w != [] {
      NoRisk(w[..|w| - 1]);
    }
  }

  lemma {:induction false} StartIsSteady(b: Book)
    requires AllStable(b)
    ensures SteadyOnChain(ChainEpisode(b, b.wallet, map[]))
  {
    NoRisk(b.wallet);
    ShedsNothing(b.wallet, map[]);
  }

  /**
   * The reconciled loop never reaches the 6% gate. From START_NAV or more in stables, every pass rebuilding its book
   * from the wallet, over any orderly run of any length, whatever the signals, the clock and the fills: the drawdown
   * decided on and the drawdown left after every pass are under 6%.
   */
  lemma {:induction false} ReconciledNeverReachesGate(b: Book, feeds: seq<Feed>, i: nat)
    requires AllStable(b) && i < |feeds|
    requires Runs.Along(ChainNext, OrderlyPass, ChainEpisode(b, b.wallet, map[]), feeds)
    ensures Drawdown(AtDecision(LiveRun(b, feeds[..i]), feeds[i])) < GATE_PCT
    ensures Drawdown(LiveRun(b, feeds[..i + 1]).ledger) < GATE_PCT
  {
    var e := ChainEpisode(b, b.wallet, map[]);
    StartIsSteady(b);
    forall e': ChainEpisode, f: Feed | SteadyOnChain(e') && OrderlyPass(e', f) ensures SteadyOnChain(ChainNext(e', f)) {
      PassStaysUnderGate(e', f);
    }
    Runs.AlongPrefix(ChainNext, OrderlyPass, e, feeds, i);
    Runs.Invariant(ChainNext, OrderlyPass, SteadyOnChain, e, feeds[..i]);
    PassStaysUnderGate(ChainPlay(e, feeds[..i]), feeds[i]);
    ChainPlayBook(e, feeds[..i]);
    RunExtends(b, feeds, i + 1);
  }

  lemma {:induction false} ChainPlayBook(e: ChainEpisode, feeds: seq<Feed>)
    ensures ChainPlay(e, feeds).book == LiveRun(e.book, feeds)
  {
    if feeds != [] {
      ChainPlayBook(e, feeds[..|feeds| - 1]);
    }
  }
}
