// The whole-run drawdown bound: from 2% down the book only sheds risk, so a bounded fall of prices bounds the loss.
module DrawdownBound {
  import opened Types
  import opened Money
  import opened Survival
  import opened Core
  import opened Fills
  import opened Adherence
  import Engine
  import Ladder

  function Symbols(ps: seq<Holding>): (r: seq<Token>)
    ensures |r| == |ps| && forall i :: 0 <= i < |ps| ==> r[i] == ps[i].sym
  {
    if ps == [] then [] else [ps[0].sym] + Symbols(ps[1..])
  }

  // ------------------------------------------------------------ risky value as a sum over tokens

  /** Value of a token's holding at price m. */
  function HeldOf(ps: seq<Holding>, m: Token -> real, t: Token): real { Usd(Qty(ps, t), m(t)) }

  lemma QtyOfAppend(ps: seq<Holding>, t: Token)
    requires ps != [] && DistinctSymbols(ps)
    ensures var n := |ps| - 1;
            && (t != ps[n].sym ==> Qty(ps, t) == Qty(ps[..n], t) && (Holds(ps, t) <==> Holds(ps[..n], t)))
            && Qty(ps, ps[n].sym) == ps[n].qty && Holds(ps, ps[n].sym)
            && Qty(ps[..n], ps[n].sym) == 0.0
  {
    var n := |ps| - 1;
    assert ps == ps[..n] + [ps[n]];
    IndexOfAppend(ps[..n], ps[n], t);
    IndexOfAppend(ps[..n], ps[n], ps[n].sym);
  }

  /** A book's value at prices m is the sum over any list of distinct tokens that covers it. */
  lemma {:induction false} RiskyIsSum(ps: seq<Holding>, price: Prices, tokens: seq<Token>, m: Token -> real)
    requires DistinctSymbols(ps) && Distinct(tokens)
    requires forall h :: h in ps ==> h.sym in tokens && MarkPrice(h, price) == m(h.sym)
    ensures RiskyValue(ps, price) == Sum(tokens, t => HeldOf(ps, m, t))
  {
    var f := (t: Token) => HeldOf(ps, m, t);
    if ps == [] {
      SumZero(tokens, f);
    } else {
      var n := |ps| - 1;
      var g := (t: Token) => HeldOf(ps[..n], m, t);
      forall t ensures t != ps[n].sym ==> f(t) == g(t) {
        QtyOfAppend(ps, t);
      }
      RiskyIsSum(ps[..n], price, tokens, m);
      assert ps[n] in ps;
      SumChange(tokens, g, f, ps[n].sym);
      QtyOfAppend(ps, ps[n].sym);
      assert g(ps[n].sym) == Usd(0.0, m(ps[n].sym)) == 0.0;
    }
  }

  lemma {:induction false} SumZero<K>(keys: seq<K>, f: K -> real)
    requires forall k :: k in keys ==> f(k) == 0.0
    ensures Sum(keys, f) == 0.0
  {
    if keys != [] {
      SumZero(keys[1..], f);
    }
  }

  // ------------------------------------------------------------ shedding risk

  /** Units still accounted for: what is held, or the dust a popped position may have written off. */
  function Credit(ps: seq<Holding>, t: Token): real { if Holds(ps, t) then Qty(ps, t) else EPS }

  /** Value at the floor prices of the units a book has given up since its base. */
  function Shed(base: seq<Holding>, ps: seq<Holding>, floor: Token -> real): real {
    Sum(Symbols(base), t => ShedOf(base, ps, floor, t))
  }

  function ShedOf(base: seq<Holding>, ps: seq<Holding>, floor: Token -> real, t: Token): real {
    Usd(Qty(base, t) - Credit(ps, t), floor(t))
  }

  /** No token or unit was added since the base, and everything given up was paid for at the floor price or better. */
  ghost predicate OnlyShed(base: Ledger, l: Ledger, floor: Token -> real) {
    && Sound(base.positions) && Sound(l.positions)
    && (forall t :: Holds(l.positions, t) ==> Holds(base.positions, t))
    && (forall t :: Qty(l.positions, t) <= Qty(base.positions, t))
    && l.stable >= base.stable + Shed(base.positions, l.positions, floor)
  }

  lemma HoldsIsSymbol(ps: seq<Holding>, t: Token)
    ensures Holds(ps, t) <==> t in Symbols(ps)
    ensures Holds(ps, t) <==> exists h :: h in ps && h.sym == t
  {
    var i := IndexOf(ps, t);
    if i < |ps| {
      assert Symbols(ps)[i] == t && ps[i] in ps;
    }
  }

  lemma NothingShed(ps: seq<Holding>, floor: Token -> real, t: Token)
    requires t in Symbols(ps)
    ensures ShedOf(ps, ps, floor, t) == 0.0
  {
    HoldsIsSymbol(ps, t);
    UsdSplit(Qty(ps, t), Qty(ps, t), floor(t));
  }

  lemma ShedNothing(l: Ledger, floor: Token -> real)
    requires Sound(l.positions)
    ensures OnlyShed(l, l, floor)
  {
    var shed := (t: Token) => ShedOf(l.positions, l.positions, floor, t);
    forall t | t in Symbols(l.positions) ensures shed(t) == 0.0 {
      NothingShed(l.positions, floor, t);
    }
    SumZero(Symbols(l.positions), shed);
    assert Shed(l.positions, l.positions, floor) == Sum(Symbols(l.positions), shed);
  }

  lemma RemovedIndex(ps: seq<Holding>, i: nat, t: Token)
    requires DistinctSymbols(ps) && i < |ps|
    ensures var after := ps[..i] + ps[i + 1..];
            if t == ps[i].sym then IndexOf(after, t) == |after|
            else IndexOf(after, t) == (if IndexOf(ps, t) > i then IndexOf(ps, t) - 1 else IndexOf(ps, t))
  {
    var after := ps[..i] + ps[i + 1..];
    var j := IndexOf(ps, t);
    forall m | 0 <= m < |after| ensures after[m] == if m < i then ps[m] else ps[m + 1] {
    }
    if t != ps[i].sym && j < |ps| {
      var m := if j > i then j - 1 else j;
      assert after[m] == ps[j];
    }
  }

  lemma QtyRemoved(ps: seq<Holding>, i: nat, t: Token)
    requires DistinctSymbols(ps) && i < |ps|
    ensures var after := ps[..i] + ps[i + 1..];
            && (Holds(after, t) <==> Holds(ps, t) && t != ps[i].sym)
            && Qty(after, t) == if t == ps[i].sym then 0.0 else Qty(ps, t)
  {
    RemovedIndex(ps, i, t);
  }

  lemma QtyReduced(ps: seq<Holding>, i: nat, h: Holding, t: Token)
    requires DistinctSymbols(ps) && i < |ps| && h.sym == ps[i].sym
    ensures (Holds(ps[i := h], t) <==> Holds(ps, t))
    ensures Qty(ps[i := h], t) == if t == ps[i].sym then h.qty else Qty(ps, t)
  {
    IndexOfUnchanged(ps, ps[i := h], t);
  }

  /** What a sale does to the holding of each token. */
  lemma QtyOfSold(ps: seq<Holding>, i: nat, units: real, t: Token)
    requires DistinctSymbols(ps) && i < |ps|
    ensures var after, left := Sold(ps, i, units), ps[i].qty - units;
            if t != ps[i].sym then Qty(after, t) == Qty(ps, t) && Credit(after, t) == Credit(ps, t)
                                   && (Holds(after, t) <==> Holds(ps, t))
            else Holds(ps, t) && Qty(ps, t) == ps[i].qty && Credit(after, t) == Max(EPS, left)
                 && Qty(after, t) == if left <= EPS then 0.0 else left
  {
    if ps[i].qty - units <= EPS {
      QtyRemoved(ps, i, t);
    } else {
      QtyReduced(ps, i, ps[i].(qty := ps[i].qty - units), t);
    }
  }

  /** A sale at the floor price or better sheds risk. */
  lemma SaleSheds(base: Ledger, l: Ledger, d: Decision, amount: real, price: Prices, now: real, floor: Token -> real)
    requires OnlyShed(base, l, floor) && d.side == Sell && amount >= 0.0
    requires Holds(l.positions, d.fromToken) ==> PriceOrZero(price, d.fromToken) >= floor(d.fromToken) >= 0.0
    ensures var after := Filled(l, d, amount, price, now);
            OnlyShed(base, after, floor) && after.stable >= l.stable
            && forall t :: Qty(after.positions, t) <= Qty(l.positions, t)
  {
    var px := PriceOrZero(price, d.fromToken);
    var i := IndexOf(l.positions, d.fromToken);
    if px > 0.0 && i < |l.positions| {
      var units := UnitsSold(l.positions[i], amount, px);
      QuotientNonNegative(amount, px);
      SaleShedsHeld(base, l, i, units, px, floor);
      var after := Filled(l, d, amount, price, now);
      assert after == l.(stable := l.stable + Usd(units, px), positions := Sold(l.positions, i, units));
    }
  }

  lemma SaleShedsHeld(base: Ledger, l: Ledger, i: nat, units: real, px: real, floor: Token -> real)
    requires OnlyShed(base, l, floor) && i < |l.positions| && 0.0 <= units <= l.positions[i].qty
    requires px >= floor(l.positions[i].sym) >= 0.0
    ensures var after := l.(stable := l.stable + Usd(units, px), positions := Sold(l.positions, i, units));
            OnlyShed(base, after, floor) && after.stable >= l.stable
            && forall t :: Qty(after.positions, t) <= Qty(l.positions, t)
  {
    var ps := l.positions;
    var after := Sold(ps, i, units);
    UsdNonNegative(units, px);
    forall t ensures Qty(after, t) <= Qty(ps, t) && (Holds(after, t) ==> Holds(ps, t)) {
      QtyOfSold(ps, i, units, t);
    }
    ShedBySale(base, l, i, units, px, floor);
  }

  lemma ShedBySale(base: Ledger, l: Ledger, i: nat, units: real, px: real, floor: Token -> real)
    requires OnlyShed(base, l, floor) && i < |l.positions| && 0.0 <= units <= l.positions[i].qty
    requires px >= floor(l.positions[i].sym) >= 0.0
    ensures Shed(base.positions, Sold(l.positions, i, units), floor)
            <= Shed(base.positions, l.positions, floor) + Usd(units, px)
  {
    var ps, s := l.positions, l.positions[i].sym;
    var after := Sold(ps, i, units);
    var f := (t: Token) => ShedOf(base.positions, ps, floor, t);
    var g := (t: Token) => ShedOf(base.positions, after, floor, t);
    forall t ensures t != s ==> f(t) == g(t) {
      QtyOfSold(ps, i, units, t);
    }
    assert Credit(ps, s) - Credit(after, s) <= units by {
      QtyOfSold(ps, i, units, s);
    }
    assert s in Symbols(base.positions) by {
      assert Holds(ps, s);
      HoldsIsSymbol(base.positions, s);
    }
    SumChange(Symbols(base.positions), f, g, s);
    ShedOfOne(base.positions, ps, after, units, floor, px, s);
  }

  /** Giving up at most `units` adds at most their proceeds to what was shed. */
  lemma ShedOfOne(base: seq<Holding>, ps: seq<Holding>, after: seq<Holding>, units: real, floor: Token -> real,
                  px: real, s: Token)
    requires Credit(ps, s) - Credit(after, s) <= units && 0.0 <= units && 0.0 <= floor(s) <= px
    ensures ShedOf(base, after, floor, s) - ShedOf(base, ps, floor, s) <= Usd(units, px)
  {
    var was, left := Qty(base, s) - Credit(ps, s), Qty(base, s) - Credit(after, s);
    UsdSplit(left, was, floor(s));
    UsdOrdered(left - was, units, floor(s));
    ProductOrdered(floor(s), px, units);
  }

  // ------------------------------------------------------------ the floor under NAV

  /** Base value at the floor prices, less the dust that pops may write off. */
  function FloorValue(base: seq<Holding>, floor: Token -> real): real {
    Sum(Symbols(base), t => FloorOf(base, floor, t))
  }

  function FloorOf(base: seq<Holding>, floor: Token -> real, t: Token): real { Usd(Qty(base, t) - EPS, floor(t)) }

  /**
   * While a book only sheds and no held price is under its floor, NAV keeps base cash plus base holdings at the floor.
   */
  lemma NavFloor(base: Ledger, l: Ledger, price: Prices, floor: Token -> real)
    requires OnlyShed(base, l, floor)
    requires forall t :: floor(t) >= 0.0
    requires forall h :: h in l.positions ==> MarkPrice(h, price) >= floor(h.sym)
    ensures MarkedNav(l, price) >= base.stable + FloorValue(base.positions, floor)
  {
    var tokens := Symbols(base.positions);
    var ps := l.positions;
    var shed := (t: Token) => ShedOf(base.positions, ps, floor, t);
    var held := (t: Token) => HeldOf(ps, floor, t);
    var both := (t: Token) => shed(t) + held(t);
    var least := (t: Token) => FloorOf(base.positions, floor, t);
    SumPlus(tokens, shed, held, both);
    forall t ensures least(t) <= both(t) {
      FloorOfOne(base.positions, ps, floor, t);
    }
    SumOrdered(tokens, least, both);
    HeldAtLeast(ps, price, base.positions, floor);
  }

  lemma FloorOfOne(base: seq<Holding>, ps: seq<Holding>, floor: Token -> real, t: Token)
    requires floor(t) >= 0.0
    ensures FloorOf(base, floor, t) <= ShedOf(base, ps, floor, t) + HeldOf(ps, floor, t)
  {
    UsdSplit(Qty(base, t) - Credit(ps, t), Qty(ps, t), floor(t));
    UsdOrdered(Qty(base, t) - EPS, Qty(base, t) - Credit(ps, t) + Qty(ps, t), floor(t));
  }

  /** Mark price of the holding of a token. */
  function MarkOf(ps: seq<Holding>, price: Prices, t: Token): real {
    if Holds(ps, t) then MarkPrice(ps[IndexOf(ps, t)], price) else 0.0
  }

  lemma HeldAtLeast(ps: seq<Holding>, price: Prices, base: seq<Holding>, floor: Token -> real)
    requires Sound(ps) && DistinctSymbols(base)
    requires forall t :: Holds(ps, t) ==> Holds(base, t)
    requires forall h :: h in ps ==> MarkPrice(h, price) >= floor(h.sym)
    ensures Sum(Symbols(base), t => HeldOf(ps, floor, t)) <= RiskyValue(ps, price)
  {
    var m := (t: Token) => MarkOf(ps, price, t);
    forall h | h in ps ensures h.sym in Symbols(base) && MarkPrice(h, price) == m(h.sym) {
      HoldsIsSymbol(base, h.sym);
    }
    RiskyIsSum(ps, price, Symbols(base), m);
    forall t ensures HeldOf(ps, floor, t) <= HeldOf(ps, m, t) {
      HeldOfOrdered(ps, price, floor, t);
    }
    SumOrdered(Symbols(base), t => HeldOf(ps, floor, t), t => HeldOf(ps, m, t));
  }

  lemma HeldOfOrdered(ps: seq<Holding>, price: Prices, floor: Token -> real, t: Token)
    requires Sound(ps)
    requires forall h :: h in ps ==> MarkPrice(h, price) >= floor(h.sym)
    ensures HeldOf(ps, floor, t) <= HeldOf(ps, (u: Token) => MarkOf(ps, price, u), t)
  {
    if Holds(ps, t) {
      assert ps[IndexOf(ps, t)] in ps;
      ProductOrdered(floor(t), MarkOf(ps, price, t), Qty(ps, t));
    }
  }
}
