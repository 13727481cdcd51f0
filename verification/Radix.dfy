/** Positional notation: numbers as big-endian digit sequences of a fixed base. */
module Radix {

  function Pow(b: nat, n: nat): nat {
    if n == 0 then 1 else b * Pow(b, n - 1)
  }

  /** The number a digit sequence denotes. */
  function FromBase(b: nat, ds: seq<nat>): nat {
    if ds == [] then 0 else FromBase(b, ds[..|ds| - 1]) * b + ds[|ds| - 1]
  }

  /** The last `w` digits of a number. */
  function ToBase(b: nat, n: nat, w: nat): seq<nat>
    requires b > 0
    decreases w
  {
    if w == 0 then [] else ToBase(b, n / b, w - 1) + [n % b]
  }

  predicate Digits(b: nat, ds: seq<nat>) {
    forall i :: 0 <= i < |ds| ==> ds[i] < b
  }

  lemma {:induction false} ToBaseShape(b: nat, n: nat, w: nat)
    requires b > 0
    ensures |ToBase(b, n, w)| == w && Digits(b, ToBase(b, n, w))
    decreases w
  {
    if w == 0 {
    } else {
      ToBaseShape(b, n / b, w - 1);
    }
  }

  lemma {:induction false} PowPositive(b: nat, n: nat)
    requires b > 0
    ensures Pow(b, n) > 0
  {
    if n == 0 {
    } else {
      PowPositive(b, n - 1);
    }
  }

  lemma {:induction false} PowAdd(b: nat, m: nat, n: nat)
    ensures Pow(b, m + n) == Pow(b, m) * Pow(b, n)
  {
    if m == 0 {
    } else {
      PowAdd(b, m - 1, n);
      assert Pow(b, m + n) == b * Pow(b, m - 1 + n);
      MulAssoc(b, Pow(b, m - 1), Pow(b, n));
    }
  }

  lemma MulAssoc(x: int, y: int, z: int)
    ensures x * (y * z) == (x * y) * z
  {
  }

  /** A digit sequence denotes less than the power of its length. */
  lemma {:induction false} FromBaseBound(b: nat, ds: seq<nat>)
    requires Digits(b, ds)
    ensures FromBase(b, ds) < Pow(b, |ds|)
  {
    if ds == [] {
    } else {
      var init := ds[..|ds| - 1];
      FromBaseBound(b, init);
      StepBound(b, FromBase(b, init), ds[|ds| - 1], Pow(b, |init|));
    }
  }

  lemma StepBound(b: nat, n: nat, d: nat, p: nat)
    requires n < p && d < b
    ensures n * b + d < b * p
  {
    assert (n + 1) * b <= p * b;
  }

  /** Reading back the digits of a number gives the number, cut off at the width. */
  lemma {:induction false} FromTo(b: nat, n: nat, w: nat)
    requires b > 0 && n < Pow(b, w)
    ensures FromBase(b, ToBase(b, n, w)) == n
    decreases w
  {
    if w == 0 {
    } else {
      DivBound(b, n, Pow(b, w - 1));
      FromTo(b, n / b, w - 1);
      DivMod(b, n);
      var q, r := n / b, n % b;
      var init := ToBase(b, q, w - 1);
      assert (init + [r])[..|init|] == init;
    }
  }

  lemma DivBound(b: nat, n: nat, p: nat)
    requires b > 0 && n < b * p
    ensures n / b < p
  {
  }

  /** Writing the number a digit sequence denotes gives the sequence. */
  lemma {:induction false} ToFrom(b: nat, ds: seq<nat>)
    requires b > 0 && Digits(b, ds)
    ensures ToBase(b, FromBase(b, ds), |ds|) == ds
  {
    if ds == [] {
    } else {
      var init := ds[..|ds| - 1];
      ToFrom(b, init);
      DivModStep(b, FromBase(b, init), ds[|ds| - 1]);
      assert init + [ds[|ds| - 1]] == ds;
    }
  }

  lemma DivModStep(b: nat, n: nat, d: nat)
    requires d < b
    ensures (n * b + d) / b == n && (n * b + d) % b == d
  {
    var q, r := (n * b + d) / b, (n * b + d) % b;
    assert n * b + d == q * b + r && 0 <= r < b;
    SameQuotient(b, n, d, q, r);
  }

  lemma SameQuotient(b: nat, n: int, d: nat, q: int, r: nat)
    requires d < b && r < b && n * b + d == q * b + r
    ensures n == q && d == r
  {
    assert (n - q) * b == r - d;
    if n > q {
      AtLeast(n - q, b);
    } else if n < q {
      assert (q - n) * b == d - r;
      AtLeast(q - n, b);
    }
  }

  lemma Distribute(x: int, p: int, y: int, b: int)
    ensures (x * p + y) * b == x * (b * p) + y * b
  {
  }

  lemma AtLeast(x: int, b: nat)
    requires x >= 1
    ensures x * b >= b
  {
  }

  lemma DivMod(b: nat, n: nat)
    requires b > 0
    ensures n == (n / b) * b + n % b && 0 <= n / b && 0 <= n % b < b
  {
  }

  lemma {:induction false} FromBaseAppend(b: nat, xs: seq<nat>, ys: seq<nat>)
    ensures FromBase(b, xs + ys) == FromBase(b, xs) * Pow(b, |ys|) + FromBase(b, ys)
  {
    if ys == [] {
      assert xs + ys == xs;
    } else {
      var init := ys[..|ys| - 1];
      FromBaseAppend(b, xs, init);
      assert (xs + ys)[..|xs + ys| - 1] == xs + init;
      Distribute(FromBase(b, xs), Pow(b, |init|), FromBase(b, init), b);
    }
  }
}
