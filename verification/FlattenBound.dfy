// How fast flattening is: every pass sells a position out or a whole capped amount.
module FlattenBound {
  import opened Types
  import opened Money
  import opened Survival
  import opened Core
  import opened Fills
  import opened Adherence
  import opened WholeRun
  import opened Flatten
  import WindUp
  import Engine
  import Ladder

  function IsKept(b: Balance, price: Prices): nat { if Kept(b, price, LIVE.quotes) then 1 else 0 }

  /** How many balances of the wallet are worth a position. */
  function KeptCount(w: seq<Balance>, price: Prices): nat {
    if w == [] then 0 else KeptCount(w[..|w| - 1], price) + IsKept(w[|w| - 1], price)
  }

  lemma {:induction false} KeptCountUpdate(w: seq<Balance>, i: nat, b: Balance, price: Prices)
    requires i < |w|
    ensures KeptCount(w[i := b], price) == KeptCount(w, price) - IsKept(w[i], price) + IsKept(b, price)
  {
    var n := |w| - 1;
    if i == n {
      assert w[i := b][..n] == w[..n];
    } else {
      assert w[i := b][..n] == w[..n][i := b];
      KeptCountUpdate(w[..n], i, b, price);
    }
  }

  /** The capped amount of a sale when at least this much of the account is in cash. */
  function Quantum(cash: real): real { Cents(WindUp.Cap(Max(1.0, cash))) }

  lemma {:induction false} CapGrows(low: real, high: real)
    requires 0.0 < low <= high
    ensures WindUp.Cap(low) <= WindUp.Cap(high)
  {
    UsdOrdered(low, high, LIVE.risk.maxSinglePct);
  }

  lemma {:induction false} QuantumIsReal(cash: real)
    ensures Quantum(cash) >= 0.02
  {
    assert Usd(Max(1.0, cash), LIVE.risk.maxSinglePct) == Max(1.0, cash) * 0.025;
    CentsKeepsWhole(WindUp.Cap(Max(1.0, cash)), 2);
  }

  /** What is still to be sold, with one capped amount more for every position. */
  function ToSell(w: seq<Balance>, price: Prices, quantum: real): real {
    WalletRisk(w, price, LIVE.quotes) + Usd(KeptCount(w, price) as real, quantum)
  }

  /** The order of a pass: the first position's value to the cent, under the cap to the cent. */
  lemma {:induction false} PassAmount(b: Book, f: Feed) returns (i: nat)
    requires InFlattening(b, f) && GoodFeed(f) && AtDecision(b, f).positions != []
    ensures var m, price := AtDecision(b, f), PriceMap(f.views);
            && Orders(m, f, LIVE) && i < |b.wallet| && Kept(b.wallet[i], price, LIVE.quotes)
            && SaleOf(b.wallet, i, Proposal(m, f, LIVE), Ruled(m, f, LIVE).finalUsd, price, LIVE)
            && Ruled(m, f, LIVE).finalUsd
               == WindUp.Offer(Usd(b.wallet[i].qty, PriceOrZero(price, b.wallet[i].sym)), WindUp.Cap(m.nav))
            && m.nav >= 1.0
  {
    var m, price := AtDecision(b, f), PriceMap(f.views);
    DecisionIsFlattening(b, f);
    ExitProposed(m, f);
    ExitAllowed(m, f);
    NavAtLeastFirst(m, price);
    i := WalletSource(b, f, m.positions[0]);
    AmountIsOffer(m, f);
  }

  lemma {:induction false} AmountIsOffer(m: Ledger, f: Feed)
    requires Flattening(m, f) && m.positions != []
    ensures var h := m.positions[0];
            h.sym in PriceMap(f.views)
            && Ruled(m, f, LIVE).finalUsd == WindUp.Offer(Usd(h.qty, PriceMap(f.views)[h.sym]), WindUp.Cap(m.nav))
  {
    ExitProposed(m, f);
    CommittedPolicyClosed();
    StablecoinRung(m);
    assert m.positions[0].sym in LIVE.universe && m.positions[0] in m.positions;
    WindUp.ExitAllowedAtAnySize(Proposal(m, f, LIVE), EngineView(m, f), Max(0.0, f.now - f.dataTs));
  }

  /** A position either drops out, because less than a dollar of it is left, or gives up a whole capped amount. */
  lemma {:induction false} DropsOutOrPaysQuantum(v: real, nav: real, cash: real)
    requires v >= 1.0 && nav >= Max(1.0, cash)
    ensures var rest := WindUp.Remainder(v, WindUp.Cap(nav));
            || rest < 1.0
            || (rest == v - WindUp.Offer(v, WindUp.Cap(nav)) && WindUp.Offer(v, WindUp.Cap(nav)) >= Quantum(cash))
  {
    var cap := WindUp.Cap(nav);
    WindUp.CentsOfCents(v);
    CapGrows(Max(1.0, cash), nav);
    CentsKeepsOrder(WindUp.Cap(Max(1.0, cash)), cap);
  }

  /** What a sale does to the number of positions: the one sold counts if it is still worth a dollar. */
  lemma {:induction false} SaleCounts(w: seq<Balance>, i: nat, d: Decision, amount: real, price: Prices)
    requires SaleOf(w, i, d, amount, price, LIVE) && Kept(w[i], price, LIVE.quotes)
    ensures var stays := IsKept(Drawn(w, i, SaleUnits(w, i, amount, price)), price);
            KeptCount(Swapped(w, d, amount, price, LIVE.quotes), price) == KeptCount(w, price) - 1 + stays
  {
    var px := PriceOrZero(price, w[i].sym);
    var units := SaleUnits(w, i, amount, price);
    var j := SwapIsTwoUpdates(w, i, d, amount, price, LIVE);
    KeptCountUpdate(w, i, Drawn(w, i, units), price);
    KeptCountUpdate(w[i := Drawn(w, i, units)], j, Credited(w[j], Usd(units, px), price), price);
    assert w[i := Drawn(w, i, units)][j] == w[j] && w[j].sym in LIVE.quotes;
  }

  /** In dollars: the sale pays the offer or the whole position, and what stays decides whether it still counts. */
  lemma {:induction false} SalePays(w: seq<Balance>, i: nat, d: Decision, amount: real, price: Prices, nav: real,
                                    cash: real)
    requires SaleOf(w, i, d, amount, price, LIVE) && Kept(w[i], price, LIVE.quotes) && nav >= Max(1.0, cash)
    requires amount == WindUp.Offer(Usd(w[i].qty, PriceOrZero(price, w[i].sym)), WindUp.Cap(nav))
    ensures var proceeds := Usd(SaleUnits(w, i, amount, price), PriceOrZero(price, w[i].sym));
            IsKept(Drawn(w, i, SaleUnits(w, i, amount, price)), price) == 1 ==> proceeds >= Quantum(cash)
  {
    var px := PriceOrZero(price, w[i].sym);
    SaleInDollars(w[i].qty, amount, px);
    DropsOutOrPaysQuantum(Usd(w[i].qty, px), nav, cash);
  }

  /** One sale brings the end nearer by a whole capped amount. */
  lemma {:induction false} SaleNears(w: seq<Balance>, i: nat, d: Decision, amount: real, price: Prices, nav: real,
                                     cash: real)
    requires SaleOf(w, i, d, amount, price, LIVE) && Kept(w[i], price, LIVE.quotes) && nav >= Max(1.0, cash)
    requires amount == WindUp.Offer(Usd(w[i].qty, PriceOrZero(price, w[i].sym)), WindUp.Cap(nav))
    ensures var w', q := Swapped(w, d, amount, price, LIVE.quotes), Quantum(cash);
            && ToSell(w', price, q) <= ToSell(w, price, q) - q
            && StableCash(LIVE.quotes, w', price) >= StableCash(LIVE.quotes, w, price)
  {
    QuotesDistinct();
    SaleMovesValue(w, i, d, amount, price, LIVE);
    SaleCounts(w, i, d, amount, price);
    SalePays(w, i, d, amount, price, nav, cash);
    AtLeastOne(w, i, price);
    var w' := Swapped(w, d, amount, price, LIVE.quotes);
    var stays := IsKept(Drawn(w, i, SaleUnits(w, i, amount, price)), price);
    LessToSell(w, w', price, cash, Usd(SaleUnits(w, i, amount, price), PriceOrZero(price, w[i].sym)), stays);
  }

  lemma {:induction false} LessToSell(w: seq<Balance>, w': seq<Balance>, price: Prices, cash: real, proceeds: real,
                                      stays: nat)
    requires WalletRisk(w', price, LIVE.quotes) == WalletRisk(w, price, LIVE.quotes) - proceeds && proceeds >= 0.0
    requires KeptCount(w, price) >= 1 && stays <= 1 && KeptCount(w', price) == KeptCount(w, price) - 1 + stays
    requires stays == 1 ==> proceeds >= Quantum(cash)
    ensures ToSell(w', price, Quantum(cash)) <= ToSell(w, price, Quantum(cash)) - Quantum(cash)
  {
    CountInDollars(KeptCount(w, price), stays, Quantum(cash));
  }

  lemma {:induction false} AtLeastOne(w: seq<Balance>, i: nat, price: Prices)
    requires i < |w| && Kept(w[i], price, LIVE.quotes)
    ensures KeptCount(w, price) >= 1
  {
    if i < |w| - 1 {
      AtLeastOne(w[..|w| - 1], i, price);
    }
  }

  lemma {:induction false} SaleInDollars(qty: real, amount: real, px: real)
    requires px > 0.0
    ensures Usd(Min(qty, Units(amount, px)), px) == Min(Usd(qty, px), amount)
    ensures Usd(qty - Min(qty, Units(amount, px)), px) == Usd(qty, px) - Min(Usd(qty, px), amount)
  {
    UsdOfUnits(amount, px);
    WindUp.StrictlyOrdered(qty, Units(amount, px), px);
    UsdSplit(qty, Min(qty, Units(amount, px)), px);
  }

  lemma {:induction false} CountInDollars(count: nat, stays: nat, q: real)
    requires count >= 1 && stays <= 1
    ensures Usd((count - 1 + stays) as real, q) == Usd(count as real, q) - (if stays == 1 then 0.0 else q)
  {
    UsdSplit(count as real, 1.0, q);
  }

  // ------------------------------------------------------------ whole runs

  /**
   * Still in stablecoin mode, with at least this much cash, and the book is empty or this much is left to sell at most.
   */
  ghost predicate Nearing(b: Book, f: Feed, cash: real, left: real) {
    && InFlattening(b, f)
    && StableCash(LIVE.quotes, b.wallet, PriceMap(f.views)) >= cash
    && (AtDecision(b, f).positions == [] || ToSell(b.wallet, PriceMap(f.views), Quantum(cash)) <= left)
  }

  lemma {:induction false} PassNears(b: Book, f: Feed, next: Feed, cash: real, left: real)
    requires Nearing(b, f, cash, left) && GoodFeed(f) && GoodFeed(next)
    requires PriceMap(next.views) == PriceMap(f.views) && next.now >= f.now + 900.0
    ensures Nearing(LivePass(b, f), next, cash, left - Quantum(cash))
  {
    PassKeepsFlattening(b, f, next);
    if AtDecision(b, f).positions == [] {
      EmptyBookRests(b, f);
      EmptyBookStays(b.wallet, b.ledger.positions, LivePass(b, f).ledger.positions, PriceMap(f.views), LIVE.quotes,
                     f.now, next.now);
    } else {
      SellingPassNears(b, f, cash);
    }
  }

  lemma {:induction false} SellingPassNears(b: Book, f: Feed, cash: real)
    requires InFlattening(b, f) && GoodFeed(f) && AtDecision(b, f).positions != []
    requires StableCash(LIVE.quotes, b.wallet, PriceMap(f.views)) >= cash
    ensures var w', price := LivePass(b, f).wallet, PriceMap(f.views);
            && ToSell(w', price, Quantum(cash)) <= ToSell(b.wallet, price, Quantum(cash)) - Quantum(cash)
            && StableCash(LIVE.quotes, w', price) >= cash
  {
    var m, price := AtDecision(b, f), PriceMap(f.views);
    var i := PassAmount(b, f);
    NavCoversCash(b, f);
    SaleNears(b.wallet, i, Proposal(m, f, LIVE), Ruled(m, f, LIVE).finalUsd, price, m.nav, cash);
  }

  lemma {:induction false} NavCoversCash(b: Book, f: Feed)
    requires InFlattening(b, f) && GoodFeed(f)
    ensures AtDecision(b, f).nav >= StableCash(LIVE.quotes, b.wallet, PriceMap(f.views))
  {
    BookFromWallet(b, f);
    KeptNonNegative(b.wallet, PriceMap(f.views));
  }

  lemma {:induction false} KeptNonNegative(w: seq<Balance>, price: Prices)
    ensures KeptValue(w, price, LIVE.quotes) >= 0.0
  {
    if w != [] {
      KeptNonNegative(w[..|w| - 1], price);
    }
  }

  /** What n capped amounts leave of a total. */
  function LeftAfter(total: real, n: nat, q: real): real { total - Usd(n as real, q) }

  lemma {:induction false} LeftAfterOneMore(total: real, n: nat, q: real)
    requires n > 0
    ensures LeftAfter(total, n, q) == LeftAfter(total, n - 1, q) - q
  {
    UsdSplit((n - 1) as real, 1.0, q);
  }

  lemma {:induction false} StartsNear(b: Book, f: Feed, cash: real)
    requires InFlattening(b, f) && cash == StableCash(LIVE.quotes, b.wallet, PriceMap(f.views))
    ensures Nearing(b, f, cash, LeftAfter(ToSell(b.wallet, PriceMap(f.views), Quantum(cash)), 0, Quantum(cash)))
  {
  }

  lemma {:induction false} RunNears(b: Book, price: Prices, feeds: seq<Feed>, n: nat, cash: real)
    requires FixedMarket(price, feeds) && n < |feeds| && InFlattening(b, feeds[0])
    requires cash == StableCash(LIVE.quotes, b.wallet, price)
    ensures Nearing(LiveRun(b, feeds[..n]), feeds[n], cash,
                    LeftAfter(ToSell(b.wallet, price, Quantum(cash)), n, Quantum(cash)))
  {
    FeedsAreGood(price, feeds, n);
    if n == 0 {
      assert feeds[..0] == [];
      StartsNear(b, feeds[0], cash);
    } else {
      RunNears(b, price, feeds, n - 1, cash);
      OneMoreNears(b, price, feeds, n, cash, ToSell(b.wallet, price, Quantum(cash)));
    }
  }

  lemma {:induction false} OneMoreNears(b: Book, price: Prices, feeds: seq<Feed>, n: nat, cash: real, total: real)
    requires FixedMarket(price, feeds) && 0 < n < |feeds|
    requires Nearing(LiveRun(b, feeds[..n - 1]), feeds[n - 1], cash, LeftAfter(total, n - 1, Quantum(cash)))
    ensures Nearing(LiveRun(b, feeds[..n]), feeds[n], cash, LeftAfter(total, n, Quantum(cash)))
  {
    FeedsAreGood(price, feeds, n);
    FeedsAreGood(price, feeds, n - 1);
    RunExtends(b, feeds, n);
    LeftAfterOneMore(total, n, Quantum(cash));
    PassNears(LiveRun(b, feeds[..n - 1]), feeds[n - 1], feeds[n], cash, LeftAfter(total, n - 1, Quantum(cash)));
  }

  lemma {:induction false} SomethingLeft(w: seq<Balance>, price: Prices, quantum: real)
    requires KeptValue(w, price, LIVE.quotes) > 0.0 && quantum > 0.0
    requires forall i :: 0 <= i < |w| ==> w[i].qty >= 0.0
    requires forall t :: t in price ==> price[t] >= 0.0
    ensures ToSell(w, price, quantum) > 0.0
  {
    RiskCoversKept(w, price, LIVE.quotes);
    UsdNonNegative(KeptCount(w, price) as real, quantum);
  }

  /**
   * Flattening takes at most as many passes as there are positions, and one more for every capped amount in the risky
   * value, the cap being that of the cash at the start: 2.5% of it, at most 100 dollars, at least 2 cents.
   */
  lemma {:induction false} FlattensWithin(b: Book, price: Prices, feeds: seq<Feed>, n: nat)
    requires FixedMarket(price, feeds) && n < |feeds| && InFlattening(b, feeds[0])
    requires var q := Quantum(StableCash(LIVE.quotes, b.wallet, price));
             Usd(n as real, q) >= Usd(KeptCount(b.wallet, price) as real, q) + WalletRisk(b.wallet, price, LIVE.quotes)
    ensures AtDecision(LiveRun(b, feeds[..n]), feeds[n]).positions == []
  {
    var cash := StableCash(LIVE.quotes, b.wallet, price);
    RunNears(b, price, feeds, n, cash);
    FeedsAreGood(price, feeds, n);
    var later := LiveRun(b, feeds[..n]);
    if AtDecision(later, feeds[n]).positions != [] {
      BookIsWorthSomething(later, feeds[n]);
      QuantumIsReal(cash);
      SomethingLeft(later.wallet, price, Quantum(cash));
    }
  }

  lemma {:induction false} BookIsWorthSomething(b: Book, f: Feed)
    requires InFlattening(b, f) && GoodFeed(f) && AtDecision(b, f).positions != []
    ensures KeptValue(b.wallet, PriceMap(f.views), LIVE.quotes) > 0.0
  {
    DecisionIsFlattening(b, f);
    BookIsKept(b.wallet, b.ledger.positions, PriceMap(f.views), LIVE.quotes, f.now);
    RiskyAtLeastCount(AtDecision(b, f).positions, PriceMap(f.views));
  }
}
