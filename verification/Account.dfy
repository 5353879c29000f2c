// backtest/portfolio.py: the backtest account as values, and what fills do to it.
module Account {
  import opened Types
  import opened Money

  datatype CostData = CostData(feeBps: real, slipBps: real)

  /** Costs in basis points: fractions between nothing and everything. */
  type Costs = c: CostData | 0.0 <= c.feeBps <= 10000.0 && 0.0 <= c.slipBps <= 10000.0 witness CostData(25.0, 30.0)

  function Rate(bps: real): real { bps / 10000.0 }

  function CostRate(c: Costs): real { Rate(c.feeBps) + Rate(c.slipBps) }

  /** Cash and positions; order lists the keys of qty as they were inserted. */
  datatype Book = Book(cash: real, order: seq<Token>, qty: map<Token, real>,
                       entry: map<Token, real>, hour: map<Token, int>, trades: nat)

  ghost predicate Keyed(b: Book) {
    && Distinct(b.order)
    && (forall a :: a in b.qty <==> a in b.order)
    && b.entry.Keys == b.qty.Keys && b.hour.Keys == b.qty.Keys
  }

  /** Identical key sets, nothing held short, no debt. */
  ghost predicate Sound(b: Book) {
    Keyed(b) && b.cash >= 0.0 && forall a :: a in b.qty ==> b.qty[a] > 0.0
  }

  function Qty(b: Book, a: Token): real { if a in b.qty then b.qty[a] else 0.0 }

  /** Value of one position; a token without a price counts nothing. */
  function Held(b: Book, prices: Prices, a: Token): real {
    if Qty(b, a) > 0.0 then Usd(Qty(b, a), PriceOrZero(prices, a)) else 0.0
  }

  function HeldBy(b: Book, prices: Prices): Token -> real { a => Held(b, prices, a) }

  function Risky(b: Book, prices: Prices): real { Sum(b.order, HeldBy(b, prices)) }

  function Nav(b: Book, prices: Prices): real { b.cash + Risky(b, prices) }

  // ------------------------------------------------------------ buying

  function FillUp(px: real, c: Costs): real { Usd(px, 1.0 + Rate(c.slipBps)) }

  function FillDown(px: real, c: Costs): real { Usd(px, 1.0 - Rate(c.slipBps)) }

  function Gross(b: Book, usd: real): real { Min(usd, b.cash) }

  function BuyFee(b: Book, usd: real, c: Costs): real { Usd(Gross(b, usd), Rate(c.feeBps)) }

  /** What goes into the asset: the gross amount, or what the fee leaves of the cash. */
  function Spend(b: Book, usd: real, c: Costs): real {
    if Gross(b, usd) + BuyFee(b, usd, c) > b.cash then Max(0.0, b.cash - BuyFee(b, usd, c)) else Gross(b, usd)
  }

  predicate BuyFills(b: Book, usd: real, px: real, c: Costs) {
    px > 0.0 && usd > 0.0 && Gross(b, usd) > 0.0 && Spend(b, usd, c) > 0.0
  }

  lemma FillUpPositive(px: real, c: Costs)
    requires px > 0.0
    ensures FillUp(px, c) >= px
  {
    ProductOrdered(1.0, 1.0 + Rate(c.slipBps), px);
  }

  function BuyUnits(b: Book, usd: real, px: real, c: Costs): real
    requires px > 0.0
  {
    FillUpPositive(px, c);
    Units(Spend(b, usd, c), FillUp(px, c))
  }

  /** Adds units of an asset: the entry price is averaged over an open position, else set with the hour. */
  function Added(b: Book, a: Token, units: real, fill: real, hour: int): Book
    requires Keyed(b)
  {
    var was := Qty(b, a);
    var t := if was > 0.0 then
        b.(entry := b.entry[a := if was + units != 0.0
                                 then Units(Usd(b.entry[a], was) + Usd(fill, units), was + units) else 0.0])
      else b.(entry := b.entry[a := fill], hour := b.hour[a := hour]);
    t.(order := if a in b.qty then b.order else b.order + [a], qty := b.qty[a := was + units])
  }

  function Bought(b: Book, a: Token, usd: real, px: real, hour: int, c: Costs): Book
    requires Keyed(b)
  {
    if BuyFills(b, usd, px, c) then
      var t := Added(b, a, BuyUnits(b, usd, px, c), FillUp(px, c), hour);
      t.(cash := b.cash - (Spend(b, usd, c) + BuyFee(b, usd, c)), trades := b.trades + 1)
    else b
  }

  // ------------------------------------------------------------ selling

  const DUST := 0.000000000001

  predicate SellFills(b: Book, a: Token, fraction: real, px: real) {
    Qty(b, a) > 0.0 && px > 0.0 && fraction > 0.0
  }

  function SellUnits(b: Book, a: Token, fraction: real): real { Usd(Qty(b, a), Min(1.0, fraction)) }

  /** What a sale of units brings in after slippage and fee. */
  function Proceeds(units: real, px: real, c: Costs): real {
    var gross := Usd(units, FillDown(px, c));
    gross - Usd(gross, Rate(c.feeBps))
  }

  function Dropped(order: seq<Token>, a: Token): (r: seq<Token>)
    ensures a !in r
    ensures forall x :: x in r <==> x in order && x != a
  {
    if order == [] then []
    else if order[0] == a then Dropped(order[1..], a)
    else [order[0]] + Dropped(order[1..], a)
  }

  /** Takes units off a position; a position of dust or less is removed from all three dictionaries. */
  function Reduced(b: Book, a: Token, units: real): Book {
    var left := Qty(b, a) - units;
    if left <= DUST then
      b.(order := Dropped(b.order, a), qty := b.qty - {a}, entry := b.entry - {a}, hour := b.hour - {a})
    else b.(qty := b.qty[a := left])
  }

  function Sold(b: Book, a: Token, fraction: real, px: real, c: Costs): Book {
    if SellFills(b, a, fraction, px) then
      var units := SellUnits(b, a, fraction);
      Reduced(b, a, units).(cash := b.cash + Proceeds(units, px, c), trades := b.trades + 1)
    else b
  }

  // ------------------------------------------------------------ flattening

  /** Selling the listed assets in turn. */
  function SoldAll(b: Book, assets: seq<Token>, prices: Prices, c: Costs): Book {
    if assets == [] then b
    else
      var n := |assets| - 1;
      Sold(SoldAll(b, assets[..n], prices, c), assets[n], 1.0, PriceOrZero(prices, assets[n]), c)
  }

  /** How many of the listed sales bring anything in. */
  function Fills(b: Book, assets: seq<Token>, prices: Prices, c: Costs): nat {
    if assets == [] then 0
    else
      var n := |assets| - 1;
      Fills(b, assets[..n], prices, c)
      + if SoldAll(b, assets, prices, c).cash > SoldAll(b, assets[..n], prices, c).cash then 1 else 0
  }

  lemma OneMoreSale(b: Book, assets: seq<Token>, i: nat, prices: Prices, c: Costs)
    requires i < |assets|
    ensures var t, u := SoldAll(b, assets[..i], prices, c), SoldAll(b, assets[..i + 1], prices, c);
            && u == Sold(t, assets[i], 1.0, PriceOrZero(prices, assets[i]), c)
            && Fills(b, assets[..i + 1], prices, c)
               == Fills(b, assets[..i], prices, c) + if u.cash > t.cash then 1 else 0
  {
    assert assets[..i + 1][..i] == assets[..i];
  }

  function Flattened(b: Book, prices: Prices, c: Costs): Book { SoldAll(b, b.order, prices, c) }

  // ------------------------------------------------------------ every operation keeps the book sound

  lemma BoughtKeys(b: Book, a: Token, usd: real, px: real, hour: int, c: Costs)
    requires Sound(b) && BuyFills(b, usd, px, c)
    ensures var t := Bought(b, a, usd, px, hour, c);
            && t.order == (if a in b.qty then b.order else b.order + [a])
            && t.qty == b.qty[a := Qty(b, a) + BuyUnits(b, usd, px, c)]
            && t.entry.Keys == b.entry.Keys + {a} && t.hour.Keys == b.hour.Keys + {a}
            && t.cash == b.cash - (Spend(b, usd, c) + BuyFee(b, usd, c))
  {
  }

  lemma KeysAfterAdding(b: Book, t: Book, a: Token)
    requires Keyed(b) && t.order == (if a in b.qty then b.order else b.order + [a])
    requires t.qty.Keys == b.qty.Keys + {a} && t.entry.Keys == b.entry.Keys + {a} && t.hour.Keys == b.hour.Keys + {a}
    ensures Keyed(t)
  {
    forall x ensures x in t.qty <==> x in t.order {
      assert x in t.qty <==> x in t.qty.Keys;
    }
  }

  /** The notional is cut back so that amount and fee never exceed the cash. */
  lemma SpendFits(b: Book, usd: real, px: real, c: Costs)
    requires Sound(b) && BuyFills(b, usd, px, c)
    ensures Spend(b, usd, c) + BuyFee(b, usd, c) <= b.cash
  {
  }

  lemma BuyKeepsSound(b: Book, a: Token, usd: real, px: real, hour: int, c: Costs)
    requires Sound(b)
    ensures Sound(Bought(b, a, usd, px, hour, c))
  {
    if BuyFills(b, usd, px, c) {
      BuyUnitsPositive(b, usd, px, c);
      BoughtKeys(b, a, usd, px, hour, c);
      KeysAfterAdding(b, Bought(b, a, usd, px, hour, c), a);
      SpendFits(b, usd, px, c);
    }
  }

  lemma {:induction false} DroppedDistinct(order: seq<Token>, a: Token)
    requires Distinct(order)
    ensures Distinct(Dropped(order, a))
  {
    if order != [] {
      var more, r := Dropped(order[1..], a), Dropped(order, a);
      DroppedDistinct(order[1..], a);
      forall i, j | 0 <= i < j < |r| ensures r[i] != r[j] {
        if r != more && i == 0 {
          assert r[j] == more[j - 1] && more[j - 1] in order[1..];
        }
      }
    }
  }

  lemma ProceedsNonNegative(units: real, px: real, c: Costs)
    requires units >= 0.0 && px >= 0.0
    ensures 0.0 <= Proceeds(units, px, c)
  {
    UsdNonNegative(px, 1.0 - Rate(c.slipBps));
    var gross := Usd(units, FillDown(px, c));
    UsdNonNegative(units, FillDown(px, c));
    ProductOrdered(Rate(c.feeBps), 1.0, gross);
  }

  lemma SellUnitsInRange(b: Book, a: Token, fraction: real)
    requires Qty(b, a) > 0.0 && fraction > 0.0
    ensures 0.0 <= SellUnits(b, a, fraction) <= Qty(b, a)
    ensures fraction >= 1.0 ==> SellUnits(b, a, fraction) == Qty(b, a)
  {
    var f := Min(1.0, fraction);
    UsdNonNegative(Qty(b, a), f);
    ProductOrdered(f, 1.0, Qty(b, a));
  }

  lemma SellKeepsSound(b: Book, a: Token, fraction: real, px: real, c: Costs)
    requires Sound(b)
    ensures Sound(Sold(b, a, fraction, px, c))
  {
    if SellFills(b, a, fraction, px) {
      SellUnitsInRange(b, a, fraction);
      ProceedsNonNegative(SellUnits(b, a, fraction), px, c);
      DroppedDistinct(b.order, a);
    }
  }

  lemma {:induction false} SellAllKeepsSound(b: Book, assets: seq<Token>, prices: Prices, c: Costs)
    requires Sound(b)
    ensures Sound(SoldAll(b, assets, prices, c))
  {
    if assets != [] {
      var n := |assets| - 1;
      SellAllKeepsSound(b, assets[..n], prices, c);
      SellKeepsSound(SoldAll(b, assets[..n], prices, c), assets[n], 1.0, PriceOrZero(prices, assets[n]), c);
    }
  }

  // ------------------------------------------------------------ entry prices

  /** Entry price times quantity. */
  function CostBasis(b: Book, a: Token): real {
    if a in b.qty && a in b.entry then Usd(b.entry[a], b.qty[a]) else 0.0
  }

  /** A buy adds exactly its spend to the cost basis, keeps the hour of an open position, and touches nothing else. */
  lemma BuyAddsSpendAtCost(b: Book, a: Token, usd: real, px: real, hour: int, c: Costs)
    requires Sound(b) && BuyFills(b, usd, px, c)
    ensures var t := Bought(b, a, usd, px, hour, c);
            && CostBasis(t, a) == CostBasis(b, a) + Spend(b, usd, c)
            && t.hour == b.hour[a := if a in b.qty then b.hour[a] else hour]
            && forall x :: x in b.qty && x != a ==> x in t.qty && t.qty[x] == b.qty[x] && t.entry[x] == b.entry[x]
  {
    var fill, units := FillUp(px, c), BuyUnits(b, usd, px, c);
    BuyUnitsPositive(b, usd, px, c);
    FillUpPositive(px, c);
    UsdOfUnits(Spend(b, usd, c), fill);
    Commute(fill, units);
    if a in b.qty {
      UsdOfUnits(Usd(b.entry[a], b.qty[a]) + Usd(fill, units), b.qty[a] + units);
    }
  }

  lemma Commute(a: real, b: real)
    ensures Usd(a, b) == Usd(b, a)
  {
  }

  /** A sale leaves the entry price and hour of what remains, and every other position. */
  lemma SellKeepsEntries(b: Book, a: Token, fraction: real, px: real, c: Costs)
    requires Sound(b)
    ensures var t := Sold(b, a, fraction, px, c);
            && (forall x :: x in t.qty ==> x in b.qty && t.entry[x] == b.entry[x] && t.hour[x] == b.hour[x])
            && (forall x :: x in b.qty && x != a ==> x in t.qty && t.qty[x] == b.qty[x])
  {
    SellKeepsSound(b, a, fraction, px, c);
  }

  // ------------------------------------------------------------ what a fill costs

  /** Changing one position moves the risky value by the change of that position. */
  lemma RiskyAfterAdding(b: Book, t: Book, prices: Prices, a: Token)
    requires Keyed(b) && t.order == (if a in b.qty then b.order else b.order + [a])
    requires forall x :: x in b.qty && x != a ==> x in t.qty && t.qty[x] == b.qty[x]
    ensures Risky(t, prices) == Risky(b, prices) + Held(t, prices, a) - Held(b, prices, a)
  {
    var f, g := HeldBy(b, prices), HeldBy(t, prices);
    if a in b.qty {
      SumChange(b.order, f, g, a);
    } else {
      SumSame(b.order, f, g);
      SumAppend(b.order, a, g);
    }
  }

  lemma {:induction false} SumAppend(keys: seq<Token>, k: Token, f: Token -> real)
    ensures Sum(keys + [k], f) == Sum(keys, f) + f(k)
  {
    if keys == [] {
      assert ([] + [k])[1..] == [];
    } else {
      SumAppend(keys[1..], k, f);
      assert (keys + [k])[1..] == keys[1..] + [k];
    }
  }

  lemma {:induction false} SumDropped(order: seq<Token>, a: Token, f: Token -> real, g: Token -> real)
    requires Distinct(order) && a in order && forall x :: x in order && x != a ==> f(x) == g(x)
    ensures Sum(Dropped(order, a), g) == Sum(order, f) - f(a)
  {
    if order[0] == a {
      assert a !in order[1..];
      DroppedAbsent(order[1..], a);
      SumSame(order[1..], f, g);
    } else {
      SumDropped(order[1..], a, f, g);
      assert Dropped(order, a)[1..] == Dropped(order[1..], a);
    }
  }

  lemma {:induction false} DroppedAbsent(order: seq<Token>, a: Token)
    requires a !in order
    ensures Dropped(order, a) == order
  {
    if order != [] {
      DroppedAbsent(order[1..], a);
    }
  }

  lemma RiskyAfterReducing(b: Book, prices: Prices, a: Token, units: real)
    requires Sound(b) && a in b.qty && 0.0 <= units <= b.qty[a]
    ensures var t := Reduced(b, a, units);
            Risky(t, prices) == Risky(b, prices) - Held(b, prices, a)
                                + if b.qty[a] - units <= DUST then 0.0
                                  else Usd(b.qty[a] - units, PriceOrZero(prices, a))
  {
    var t := Reduced(b, a, units);
    if b.qty[a] - units <= DUST {
      SumDropped(b.order, a, HeldBy(b, prices), HeldBy(t, prices));
    } else {
      RiskyAfterAdding(b, t, prices, a);
    }
  }

  /** The bought units, at the price before slippage, are worth the spend less at most the slippage on it. */
  lemma BoughtValue(spend: real, px: real, c: Costs)
    requires spend >= 0.0 && px > 0.0
    ensures FillUp(px, c) > 0.0
    ensures var v := Usd(Units(spend, FillUp(px, c)), px);
            0.0 <= v <= spend <= v + Usd(spend, Rate(c.slipBps))
  {
    FillUpPositive(px, c);
    var s := Rate(c.slipBps);
    var q := Units(spend, FillUp(px, c));
    var v := Usd(q, px);
    UsdOfUnits(spend, FillUp(px, c));
    QuotientNonNegative(spend, FillUp(px, c));
    UsdNonNegative(q, px);
    assert Usd(v, 1.0 + s) == spend by {
      Associate(q, px, 1.0 + s);
    }
    Distribute(1.0, s, v);
    ProductNonNegative(v, s);
    ProductOrdered(v, spend, s);
  }

  lemma Associate(a: real, b: real, c: real)
    ensures Usd(Usd(a, b), c) == Usd(a, Usd(b, c))
  {
  }

  /** Adding units for a cost moves the account's value by what they are worth less the cost. */
  lemma AddedValue(b: Book, t: Book, a: Token, units: real, cost: real, prices: Prices)
    requires Sound(b) && a in prices && units > 0.0
    requires t.order == (if a in b.qty then b.order else b.order + [a])
    requires t.qty == b.qty[a := Qty(b, a) + units] && t.cash == b.cash - cost
    ensures Nav(t, prices) == Nav(b, prices) - cost + Usd(units, prices[a])
  {
    RiskyAfterAdding(b, t, prices, a);
    UsdSplit(Qty(b, a), units, prices[a]);
    if a !in b.qty {
      assert Held(b, prices, a) == 0.0;
    }
  }

  /** A buy moves cash into units worth their number times the price. */
  lemma BuyMovesValue(b: Book, a: Token, usd: real, px: real, hour: int, c: Costs, prices: Prices)
    requires Sound(b) && a in prices && prices[a] == px && BuyFills(b, usd, px, c)
    ensures Nav(Bought(b, a, usd, px, hour, c), prices)
            == Nav(b, prices) - Spend(b, usd, c) - BuyFee(b, usd, c) + Usd(BuyUnits(b, usd, px, c), px)
  {
    BoughtKeys(b, a, usd, px, hour, c);
    BuyUnitsPositive(b, usd, px, c);
    AddedValue(b, Bought(b, a, usd, px, hour, c), a, BuyUnits(b, usd, px, c),
               Spend(b, usd, c) + BuyFee(b, usd, c), prices);
  }

  /** A buy lowers the account's value at its own price by between nothing and fee plus slippage on the amount. */
  lemma BuyCost(b: Book, a: Token, usd: real, px: real, hour: int, c: Costs, prices: Prices)
    requires Sound(b) && a in prices && prices[a] == px
    ensures var loss := Nav(b, prices) - Nav(Bought(b, a, usd, px, hour, c), prices);
            0.0 <= loss <= Usd(Max(0.0, Gross(b, usd)), CostRate(c))
  {
    if BuyFills(b, usd, px, c) {
      BuyMovesValue(b, a, usd, px, hour, c, prices);
      BoughtValue(Spend(b, usd, c), px, c);
      CostOfGross(Gross(b, usd), Spend(b, usd, c), c);
    } else {
      UsdNonNegative(Max(0.0, Gross(b, usd)), Rate(c.feeBps) + Rate(c.slipBps));
    }
  }

  lemma CostOfGross(gross: real, spend: real, c: Costs)
    requires 0.0 <= spend <= gross
    ensures 0.0 <= Usd(gross, Rate(c.feeBps))
    ensures Usd(gross, Rate(c.feeBps)) + Usd(spend, Rate(c.slipBps)) <= Usd(gross, CostRate(c))
  {
    UsdNonNegative(gross, Rate(c.feeBps));
    UsdOrdered(spend, gross, Rate(c.slipBps));
    Distribute(Rate(c.feeBps), Rate(c.slipBps), gross);
  }

  lemma BuyUnitsPositive(b: Book, usd: real, px: real, c: Costs)
    requires BuyFills(b, usd, px, c)
    ensures BuyUnits(b, usd, px, c) > 0.0
  {
    FillUpPositive(px, c);
  }

  /** What a sale gives up of the value sold: between nothing and fee plus slippage on it. */
  lemma ProceedsCost(units: real, px: real, c: Costs)
    requires units >= 0.0 && px >= 0.0
    ensures var v := Usd(units, px);
            0.0 <= v - Proceeds(units, px, c) <= Usd(v, CostRate(c))
  {
    var v, f, s := Usd(units, px), Rate(c.feeBps), Rate(c.slipBps);
    UsdNonNegative(units, px);
    Associate(units, px, 1.0 - s);
    var gross := Usd(units, FillDown(px, c));
    assert gross == Usd(v, 1.0 - s);
    Distribute(1.0, s, v);
    ProductNonNegative(v, s);
    ProductOrdered(s, 1.0, v);
    assert 0.0 <= gross <= v;
    ProductNonNegative(gross, f);
    ProductOrdered(gross, v, f);
    Distribute(f, s, v);
  }

  /** A sale lowers the account's value at its own price by between nothing and fee plus slippage on the value sold,
      plus the value of the dust it drops. */
  lemma SellCost(b: Book, a: Token, fraction: real, px: real, c: Costs, prices: Prices)
    requires Sound(b) && a in prices && prices[a] == px
    ensures var loss := Nav(b, prices) - Nav(Sold(b, a, fraction, px, c), prices);
            if SellFills(b, a, fraction, px)
            then 0.0 <= loss <= Usd(Usd(SellUnits(b, a, fraction), px), CostRate(c)) + Usd(DUST, px)
            else loss == 0.0
  {
    if SellFills(b, a, fraction, px) {
      var units := SellUnits(b, a, fraction);
      SellUnitsInRange(b, a, fraction);
      RiskyAfterReducing(b, prices, a, units);
      RiskyIgnoresCash(Reduced(b, a, units), Sold(b, a, fraction, px, c), prices);
      ProceedsCost(units, px, c);
      UsdSplit(b.qty[a], units, px);
      UsdNonNegative(b.qty[a] - units, px);
      UsdNonNegative(DUST, px);
      if b.qty[a] - units <= DUST {
        UsdOrdered(b.qty[a] - units, DUST, px);
      }
    }
  }

  lemma RiskyIgnoresCash(b: Book, t: Book, prices: Prices)
    requires t.order == b.order && t.qty == b.qty
    ensures Risky(t, prices) == Risky(b, prices)
  {
    SumSame(b.order, HeldBy(b, prices), HeldBy(t, prices));
  }

  // ------------------------------------------------------------ flattening sells everything that has a price

  /** What flattening brings in for one position. */
  function SaleOf(b: Book, prices: Prices, c: Costs, a: Token): real {
    if PriceOrZero(prices, a) > 0.0 then Proceeds(Qty(b, a), PriceOrZero(prices, a), c) else 0.0
  }

  function SoldBy(b: Book, prices: Prices, c: Costs): Token -> real { a => SaleOf(b, prices, c, a) }

  lemma WholeSale(b: Book, a: Token, prices: Prices, c: Costs)
    requires Sound(b) && a in b.qty
    ensures var t := Sold(b, a, 1.0, PriceOrZero(prices, a), c);
            && t.cash == b.cash + SaleOf(b, prices, c, a)
            && t.qty == (if PriceOrZero(prices, a) > 0.0 then b.qty - {a} else b.qty)
            && (PriceOrZero(prices, a) <= 0.0 ==> t == b)
  {
    if PriceOrZero(prices, a) > 0.0 {
      SellUnitsInRange(b, a, 1.0);
    }
  }

  /** Selling some of the positions brings in their proceeds and leaves the others alone. */
  lemma {:induction false} SellAllSells(b: Book, assets: seq<Token>, prices: Prices, c: Costs)
    requires Sound(b) && Distinct(assets) && forall a :: a in assets ==> a in b.qty
    ensures var t := SoldAll(b, assets, prices, c);
            && t.cash == b.cash + Sum(assets, SoldBy(b, prices, c))
            && (forall a :: a in t.qty <==> a in b.qty && (a !in assets || PriceOrZero(prices, a) <= 0.0))
            && (forall a :: a in t.qty ==> t.qty[a] == b.qty[a])
  {
    if assets != [] {
      var n := |assets| - 1;
      var last, before := assets[n], SoldAll(b, assets[..n], prices, c);
      assert assets == assets[..n] + [last];
      assert forall i :: 0 <= i < n ==> assets[i] != last;
      assert last !in assets[..n];
      SellAllSells(b, assets[..n], prices, c);
      SellAllKeepsSound(b, assets[..n], prices, c);
      WholeSale(before, last, prices, c);
      SumAppend(assets[..n], last, SoldBy(b, prices, c));
          }
  }

  /** Flattening leaves exactly the positions without a positive price, and the cash grows by exactly
      the proceeds of the others. */
  lemma FlattenSells(b: Book, prices: Prices, c: Costs)
    requires Sound(b)
    ensures var t := Flattened(b, prices, c);
            && Sound(t)
            && t.cash == b.cash + Sum(b.order, SoldBy(b, prices, c))
            && (forall a :: a in t.qty <==> a in b.qty && PriceOrZero(prices, a) <= 0.0)
            && (forall a :: a in t.qty ==> t.qty[a] == b.qty[a])
  {
    SellAllSells(b, b.order, prices, c);
    SellAllKeepsSound(b, b.order, prices, c);
  }

  /** With a positive price for every position the book is empty afterwards and is worth its cash;
      the loss is at most fee plus slippage on what was held. */
  lemma FlattenEmpties(b: Book, prices: Prices, c: Costs)
    requires Sound(b) && forall a :: a in b.qty ==> PriceOrZero(prices, a) > 0.0
    ensures var t := Flattened(b, prices, c);
            && t.order == [] && t.qty == map[] && t.entry == map[] && t.hour == map[]
            && Nav(t, prices) == t.cash
            && 0.0 <= Nav(b, prices) - Nav(t, prices) <= Usd(Risky(b, prices), CostRate(c))
  {
    FlattenSells(b, prices, c);
    var t := Flattened(b, prices, c);
    if t.order != [] {
      SomethingHeld(t);
    }
    assert t.qty.Keys == {};
    forall a | a in b.order
      ensures 0.0 <= HeldBy(b, prices)(a) - SoldBy(b, prices, c)(a) <= Usd(HeldBy(b, prices)(a), CostRate(c))
    {
      SaleInRange(b, prices, c, a);
    }
    LossOfMany(b.order, HeldBy(b, prices), SoldBy(b, prices, c), CostRate(c));
  }

  lemma SomethingHeld(b: Book)
    requires Keyed(b) && b.order != []
    ensures exists a :: a in b.qty
  {
    assert b.order[0] in b.qty;
  }

  lemma SaleInRange(b: Book, prices: Prices, c: Costs, a: Token)
    requires Sound(b) && a in b.qty && PriceOrZero(prices, a) > 0.0
    ensures 0.0 <= HeldBy(b, prices)(a) - SoldBy(b, prices, c)(a) <= Usd(HeldBy(b, prices)(a), CostRate(c))
  {
    ProceedsCost(b.qty[a], PriceOrZero(prices, a), c);
  }

  /** When every part loses at most a share of itself, so does the whole. */
  lemma {:induction false} LossOfMany(assets: seq<Token>, held: Token -> real, sold: Token -> real, rate: real)
    requires forall a :: a in assets ==> 0.0 <= held(a) - sold(a) <= Usd(held(a), rate)
    ensures 0.0 <= Sum(assets, held) - Sum(assets, sold) <= Usd(Sum(assets, held), rate)
  {
    if assets == [] {
      assert Usd(0.0, rate) == 0.0;
    } else {
      LossOfMany(assets[1..], held, sold, rate);
      UsdSplit(held(assets[0]), Sum(assets[1..], held), rate);
    }
  }

  // ------------------------------------------------------------ any history of fills

  datatype Op = Buys(a: Token, usd: real, hour: int) | Sells(a: Token, fraction: real) | Flattens

  datatype Fill = Fill(op: Op, prices: Prices)

  function After(b: Book, f: Fill, c: Costs): Book
    requires Keyed(b)
  {
    match f.op
    case Buys(a, usd, hour) => Bought(b, a, usd, PriceOrZero(f.prices, a), hour, c)
    case Sells(a, fraction) => Sold(b, a, fraction, PriceOrZero(f.prices, a), c)
    case Flattens => Flattened(b, f.prices, c)
  }

  lemma StepKeepsSound(b: Book, f: Fill, c: Costs)
    requires Sound(b)
    ensures Sound(After(b, f, c))
  {
    match f.op
    case Buys(a, usd, hour) => BuyKeepsSound(b, a, usd, PriceOrZero(f.prices, a), hour, c);
    case Sells(a, fraction) => SellKeepsSound(b, a, fraction, PriceOrZero(f.prices, a), c);
    case Flattens => SellAllKeepsSound(b, b.order, f.prices, c);
  }

  /** Every history of fills keeps the account sound: no debt, no short position, identical key sets. */
  ghost function Run(b: Book, fs: seq<Fill>, c: Costs): (t: Book)
    requires Sound(b)
    ensures Sound(t)
  {
    if fs == [] then b
    else
      var before := Run(b, fs[..|fs| - 1], c);
      StepKeepsSound(before, fs[|fs| - 1], c);
      After(before, fs[|fs| - 1], c)
  }

  /** At unchanged prices, none negative, no single fill raises the account's value. */
  lemma StepNeverGains(b: Book, f: Fill, c: Costs)
    requires Sound(b) && forall a :: a in f.prices ==> f.prices[a] >= 0.0
    ensures Nav(After(b, f, c), f.prices) <= Nav(b, f.prices)
  {
    match f.op
    case Buys(a, usd, hour) =>
      if a in f.prices {
        BuyCost(b, a, usd, f.prices[a], hour, c, f.prices);
      }
    case Sells(a, fraction) =>
      if a in f.prices {
        SellCost(b, a, fraction, f.prices[a], c, f.prices);
      }
    case Flattens => SalesNeverGain(b, b.order, f.prices, c);
  }

  lemma {:induction false} SalesNeverGain(b: Book, assets: seq<Token>, prices: Prices, c: Costs)
    requires Sound(b) && forall a :: a in prices ==> prices[a] >= 0.0
    ensures Nav(SoldAll(b, assets, prices, c), prices) <= Nav(b, prices)
  {
    if assets != [] {
      var n := |assets| - 1;
      var before := SoldAll(b, assets[..n], prices, c);
      SalesNeverGain(b, assets[..n], prices, c);
      SellAllKeepsSound(b, assets[..n], prices, c);
      if assets[n] in prices {
        SellCost(before, assets[n], 1.0, prices[assets[n]], c, prices);
      }
    }
  }

  /** At unchanged prices no history of fills raises the account's value. */
  lemma {:induction false} TradingNeverGains(b: Book, fs: seq<Fill>, prices: Prices, c: Costs)
    requires Sound(b) && forall a :: a in prices ==> prices[a] >= 0.0
    requires forall i :: 0 <= i < |fs| ==> fs[i].prices == prices
    ensures Nav(Run(b, fs, c), prices) <= Nav(b, prices)
  {
    if fs != [] {
      TradingNeverGains(b, fs[..|fs| - 1], prices, c);
      StepNeverGains(Run(b, fs[..|fs| - 1], c), fs[|fs| - 1], c);
    }
  }
}
