/** Fixed-width positional notation, most significant digit first. It is
    the common ground of `int.to_bytes(8, 'big')` / `int.from_bytes(..., 'big')`
    (base 256) and of `uuid.UUID.hex` (base 16, 32 digits). */
module Positional {

  function Pow(b: nat, e: nat): (r: nat)
    ensures b > 0 ==> r > 0
  {
    if e == 0 then 1 else b * Pow(b, e - 1)
  }

  lemma {:induction false} PowAdd(b: nat, e1: nat, e2: nat)
    ensures Pow(b, e1 + e2) == Pow(b, e1) * Pow(b, e2)
  {
    if e1 > 0 {
      PowAdd(b, e1 - 1, e2);
      assert Pow(b, e1 + e2) == b * Pow(b, e1 - 1 + e2);
    }
  }

  lemma MulNonneg(a: int, b: int)
    requires a >= 0 && b >= 0
    ensures a * b >= 0
  {}

  lemma MulAtLeast(k: int, b: int)
    requires k >= 1 && b >= 0
    ensures k * b >= b
  {
    MulNonneg(k - 1, b);
    assert k * b == (k - 1) * b + b;
  }

  lemma MulMono(a: int, b: int, c: int)
    requires a <= b && c >= 0
    ensures a * c <= b * c
  {
    MulNonneg(b - a, c);
    assert b * c - a * c == (b - a) * c;
  }

  /** Euclidean division undoes `a * b + c` when the digit `c` is below `b`. */
  lemma DivModOfDigit(a: nat, b: nat, c: nat)
    requires c < b
    ensures (a * b + c) / b == a && (a * b + c) % b == c
  {
    var x := a * b + c;
    var q, r := x / b, x % b;
    assert q * b + r == x;
    assert (q - a) * b == q * b - a * b;
    if q > a {
      MulAtLeast(q - a, b);
    } else if q < a {
      MulAtLeast(a - q, b);
    }
  }

  /** The low `width` digits of `n` in base `base`. */
  function ToDigits(n: nat, base: nat, width: nat): (r: seq<nat>)
    requires base >= 2
    ensures |r| == width
    ensures forall i :: 0 <= i < |r| ==> r[i] < base
  {
    if width == 0 then [] else ToDigits(n / base, base, width - 1) + [n % base]
  }

  /** The value of a digit string. */
  function FromDigits(ds: seq<nat>, base: nat): nat
  {
    if ds == [] then 0 else FromDigits(ds[..|ds| - 1], base) * base + ds[|ds| - 1]
  }

  predicate AllBelow(ds: seq<nat>, base: nat)
  {
    forall i :: 0 <= i < |ds| ==> ds[i] < base
  }

  /** A digit string of length `k` denotes a number below `base^k`. */
  lemma {:induction false} FromDigitsBound(ds: seq<nat>, base: nat)
    requires base >= 2 && AllBelow(ds, base)
    ensures FromDigits(ds, base) < Pow(base, |ds|)
  {
    if ds != [] {
      var init, last := ds[..|ds| - 1], ds[|ds| - 1];
      FromDigitsBound(init, base);
      var v := FromDigits(init, base);
      var p := Pow(base, |init|);
      MulMono(v + 1, p, base);
      assert (v + 1) * base == v * base + base;
      assert FromDigits(ds, base) == v * base + last;
      assert Pow(base, |ds|) == base * p;
    }
  }

  /** Dropping the last digit of a number below `base * p` leaves one below `p`. */
  lemma DivBelow(n: nat, base: nat, p: nat)
    requires base >= 2 && n < base * p
    ensures n / base < p
  {
    var q := n / base;
    assert n == q * base + n % base;
    if q >= p {
      MulMono(p, q, base);
    }
  }

  lemma Recompose(n: nat, base: nat)
    requires base >= 2
    ensures (n / base) * base + n % base == n
  {}

  lemma FromDigitsSnoc(init: seq<nat>, last: nat, base: nat)
    ensures FromDigits(init + [last], base) == FromDigits(init, base) * base + last
  {
    assert (init + [last])[..|init|] == init;
  }

  /** Decoding what was encoded gives the number back, when it fits. */
  lemma {:induction false} FromToDigits(n: nat, base: nat, width: nat)
    requires base >= 2 && n < Pow(base, width)
    ensures FromDigits(ToDigits(n, base, width), base) == n
  {
    if width > 0 {
      var q := n / base;
      QuotientBelow(n, base, width);
      FromToDigits(q, base, width - 1);
      ToDigitsStep(n, base, width);
    }
  }

  /** Dropping the last digit of a number below `base^width` leaves one
      below `base^(width-1)`. */
  lemma QuotientBelow(n: nat, base: nat, width: nat)
    requires base >= 2 && width > 0 && n < Pow(base, width)
    ensures 0 <= n / base < Pow(base, width - 1)
  {
    DivBelow(n, base, Pow(base, width - 1));
  }

  /** The last digit of `n` is `n % base` and the others are those of
      `n / base`, so digits that give `n / base` back give `n` back. */
  lemma ToDigitsStep(n: nat, base: nat, width: nat)
    requires base >= 2 && width > 0
    requires FromDigits(ToDigits(n / base, base, width - 1), base) == n / base
    ensures FromDigits(ToDigits(n, base, width), base) == n
  {
    FromDigitsSnoc(ToDigits(n / base, base, width - 1), n % base, base);
    Recompose(n, base);
  }


  /** Encoding what was decoded gives the digit string back. */
  lemma {:induction false} ToFromDigits(ds: seq<nat>, base: nat)
    requires base >= 2 && AllBelow(ds, base)
    ensures ToDigits(FromDigits(ds, base), base, |ds|) == ds
  {
    if ds != [] {
      var init, last := ds[..|ds| - 1], ds[|ds| - 1];
      DivModOfDigit(FromDigits(init, base), base, last);
      ToFromDigits(init, base);
      assert ds == init + [last];
    }
  }

  /** The first `|pre|` digits of a longer string are read on their own. */
  lemma {:induction false} FromDigitsPrefix(pre: seq<nat>, rest: seq<nat>, base: nat)
    ensures FromDigits((pre + rest)[..|pre|], base) == FromDigits(pre, base)
  {
    assert (pre + rest)[..|pre|] == pre;
  }
}
