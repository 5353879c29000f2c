// Arithmetic shared by every component: dollars are reals, rounding is to the cent.
module Money {

  function Min(a: real, b: real): real { if a <= b then a else b }

  function Max(a: real, b: real): real { if a >= b then a else b }

  function Abs(a: real): real { if a >= 0.0 then a else -a }

  /** Nearest integer, ties to the even one: the rule behind Python's round. */
  function RoundHalfEven(x: real): (n: int)
    ensures -0.5 <= x - n as real <= 0.5
  {
    var below := x.Floor;
    var rest := x - below as real;
    if rest < 0.5 || (rest == 0.5 && below % 2 == 0) then below else below + 1
  }

  /** round(x, 2): a whole number of cents, at most half a cent away. */
  function Cents(x: real): (r: real)
    ensures x - 0.005 <= r <= x + 0.005
  {
    RoundHalfEven(x * 100.0) as real / 100.0
  }

  lemma RoundingKeepsOrder(x: real, y: real)
    requires x <= y
    ensures RoundHalfEven(x) <= RoundHalfEven(y)
  {
    if x.Floor == y.Floor {
    } else {
      assert x.Floor + 1 <= y.Floor;
    }
  }

  lemma CentsKeepsOrder(x: real, y: real)
    requires x <= y
    ensures Cents(x) <= Cents(y)
  {
    RoundingKeepsOrder(x * 100.0, y * 100.0);
  }

  /** Rounding to the cent never crosses a whole number of cents. */
  lemma CentsKeepsWhole(x: real, n: int)
    requires x >= n as real / 100.0
    ensures Cents(x) >= n as real / 100.0
  {
    var k := RoundHalfEven(x * 100.0);
    assert x * 100.0 >= n as real;
    assert k >= n;
  }

  /** round(x, 4): a multiple of 0.0001, at most half of one away. */
  function Round4(x: real): (r: real)
    ensures x - 0.00005 <= r <= x + 0.00005
  {
    RoundHalfEven(x * 10000.0) as real / 10000.0
  }

  /** Dollars of a quantity at a price. Naming the product lets equal factors give equal products. */
  function Usd(qty: real, px: real): real { qty * px }

  /** Units a dollar amount is worth at a price. */
  function Units(usd: real, px: real): real
    requires px != 0.0
  {
    usd / px
  }

  lemma UsdOfUnits(usd: real, px: real)
    requires px != 0.0
    ensures Usd(Units(usd, px), px) == usd
  {
    DivideBack(usd, px);
  }

  lemma UsdSplit(a: real, b: real, px: real)
    ensures Usd(a + b, px) == Usd(a, px) + Usd(b, px)
    ensures Usd(a - b, px) == Usd(a, px) - Usd(b, px)
  {
    Distribute(a, b, px);
  }

  lemma UsdNonNegative(qty: real, px: real)
    requires qty >= 0.0 && px >= 0.0
    ensures Usd(qty, px) >= 0.0
  {
    ProductNonNegative(qty, px);
  }

  lemma UsdOrdered(a: real, b: real, px: real)
    requires a <= b && px >= 0.0
    ensures Usd(a, px) <= Usd(b, px)
  {
    ProductOrdered(a, b, px);
  }

  // Products of reals, one fact at a time.

  lemma Distribute(a: real, b: real, c: real)
    ensures (a + b) * c == a * c + b * c && (a - b) * c == a * c - b * c
  {
  }

  lemma DivideBack(a: real, b: real)
    requires b != 0.0
    ensures a / b * b == a && b * (a / b) == a
  {
  }

  lemma ProductNonNegative(a: real, b: real)
    requires a >= 0.0 && b >= 0.0
    ensures a * b >= 0.0
  {
  }

  lemma ProductOrdered(a: real, b: real, c: real)
    requires a <= b && c >= 0.0
    ensures a * c <= b * c && c * a <= c * b
  {
    ProductNonNegative(b - a, c);
    Distribute(b, a, c);
  }

  lemma QuotientNonNegative(a: real, b: real)
    requires a >= 0.0 && b > 0.0
    ensures a / b >= 0.0
  {
    DivideBack(a, b);
  }

  /** Sum of f over a list of keys. */
  function Sum<K>(keys: seq<K>, f: K -> real): real {
    if keys == [] then 0.0 else f(keys[0]) + Sum(keys[1..], f)
  }

  ghost predicate Distinct<K(!new)>(keys: seq<K>) {
    forall i, j :: 0 <= i < j < |keys| ==> keys[i] != keys[j]
  }

  lemma {:induction false} SumOrdered<K>(keys: seq<K>, f: K -> real, g: K -> real)
    requires forall k :: k in keys ==> f(k) <= g(k)
    ensures Sum(keys, f) <= Sum(keys, g)
  {
    if keys != [] {
      SumOrdered(keys[1..], f, g);
    }
  }

  lemma {:induction false} SumSame<K>(keys: seq<K>, f: K -> real, g: K -> real)
    requires forall k :: k in keys ==> f(k) == g(k)
    ensures Sum(keys, f) == Sum(keys, g)
  {
    if keys != [] {
      SumSame(keys[1..], f, g);
    }
  }

  /** Changing f at one key moves the sum by exactly that change. */
  lemma {:induction false} SumChange<K(!new)>(keys: seq<K>, f: K -> real, g: K -> real, k: K)
    requires Distinct(keys) && k in keys
    requires forall x :: x in keys && x != k ==> f(x) == g(x)
    ensures Sum(keys, g) == Sum(keys, f) + g(k) - f(k)
  {
    if keys[0] == k {
      assert forall x :: x in keys[1..] ==> x != k;
      SumSame(keys[1..], f, g);
    } else {
      SumChange(keys[1..], f, g, k);
    }
  }

  lemma {:induction false} SumPlus<K>(keys: seq<K>, f: K -> real, g: K -> real, h: K -> real)
    requires forall k :: k in keys ==> h(k) == f(k) + g(k)
    ensures Sum(keys, h) == Sum(keys, f) + Sum(keys, g)
  {
    if keys != [] {
      SumPlus(keys[1..], f, g, h);
    }
  }

  lemma {:induction false} SumScale<K>(keys: seq<K>, f: K -> real, g: K -> real, c: real)
    requires forall k :: k in keys ==> g(k) == Usd(c, f(k))
    ensures Sum(keys, g) == Usd(c, Sum(keys, f))
  {
    if keys != [] {
      SumScale(keys[1..], f, g, c);
    }
  }
}
