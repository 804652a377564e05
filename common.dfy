/** Shapes shared by every module: optional values, the outcome of a call that
    can raise, scalar values found in serialized dictionaries, and sums. */
module Common {

  /** Python's `None` or a value. */
  datatype Option<T> = None | Some(value: T)

  /** A call that returns a value or raises an exception with a message. */
  datatype Result<T> = Ok(value: T) | Err(message: string)

  /** A validator that returns nothing or raises with a message. */
  datatype Outcome = Pass | Fail(message: string)

  /** Identities (UUIDs) are opaque; a natural number stands for one. */
  type Uuid = nat

  /** A scalar found in a serialized dictionary. */
  datatype Value = Null | Bool(b: bool) | Int(i: int) | Str(s: string)

  /** Python truthiness of a scalar. */
  predicate Truthy(v: Value)
  {
    match v
    case Null => false
    case Bool(b) => b
    case Int(i) => i != 0
    case Str(s) => s != []
  }

  function Sum(xs: seq<int>): int
  {
    if xs == [] then 0 else xs[0] + Sum(xs[1..])
  }

  lemma {:induction false} SumAppend(xs: seq<int>, ys: seq<int>)
    ensures Sum(xs + ys) == Sum(xs) + Sum(ys)
  {
    if xs == [] {
      assert xs + ys == ys;
    } else {
      assert (xs + ys)[1..] == xs[1..] + ys;
      SumAppend(xs[1..], ys);
    }
  }

  predicate Distinct<T(==)>(xs: seq<T>)
  {
    forall i, j :: 0 <= i < j < |xs| ==> xs[i] != xs[j]
  }

  /** `str(n)` for a natural number. */
  function NatToString(n: nat): (r: string)
    ensures |r| >= 1
  {
    if n < 10 then ["0123456789"[n]] else NatToString(n / 10) + ["0123456789"[n % 10]]
  }

  /** Python's `a // b`, which rounds toward minus infinity for either sign of `b`. */
  function FloorDiv(a: int, b: int): (q: int)
    requires b != 0
    ensures b > 0 ==> b * q <= a < b * q + b
    ensures b < 0 ==> b * q >= a > b * q + b
  {
    if b > 0 then a / b else (-a) / (-b)
  }

  lemma {:induction false} MulAtLeast(n: int, d: int)
    requires n >= 1 && d >= 1
    ensures n * d >= n
  {
    assert n * d == n * (d - 1) + n;
    if d > 1 { MulAtLeast(n, d - 1); }
  }

  /** Multiplying by a non-negative factor keeps the order. */
  lemma {:induction false} MulMonotone(c: int, a: int, b: int)
    requires c >= 0 && a <= b
    ensures c * a <= c * b
    decreases b - a
  {
    if a < b {
      MulMonotone(c, a, b - 1);
      assert c * b == c * (b - 1) + c;
    }
  }

  /** `%` is the remainder of the one division with a remainder in `0..n-1`. */
  lemma ModUnique(a: int, n: int, q: int, r: int)
    requires n >= 1 && a == n * q + r && 0 <= r < n
    ensures a % n == r
  {
    var q2 := a / n;
    var r2 := a % n;
    assert a == n * q2 + r2;
    var d := q - q2;
    assert n * d == r2 - r by { assert n * q - n * q2 == n * (q - q2); }
    if d >= 1 { MulAtLeast(n, d); }
    if d <= -1 { MulAtLeast(n, -d); }
  }

  /** Reducing before adding does not change the remainder. */
  lemma ModAddShift(x: int, b: int, n: int)
    requires n >= 1
    ensures (x % n + b) % n == (x + b) % n
  {
    var q := x / n;
    assert x == n * q + x % n;
    var y := x % n + b;
    var q2, r2 := y / n, y % n;
    assert y == n * q2 + r2;
    assert x + b == n * (q + q2) + r2 by { assert n * q + n * q2 == n * (q + q2); }
    ModUnique(x + b, n, q + q2, r2);
  }

  /** Python's `x % n` for a non-negative `x` and a positive `n`, written as
      repeated subtraction. */
  function Wrap(x: int, n: int): (r: int)
    requires x >= 0 && n >= 1
    ensures 0 <= r < n
    decreases x
  {
    if x < n then x else Wrap(x - n, n)
  }

  /** Repeated subtraction is the remainder `%` computes. */
  lemma {:induction false} WrapIsMod(x: int, n: int)
    requires x >= 0 && n >= 1
    ensures Wrap(x, n) == x % n
    decreases x
  {
    if x < n {
      ModUnique(x, n, 0, x);
    } else {
      WrapIsMod(x - n, n);
      var q := (x - n) / n;
      assert x - n == n * q + (x - n) % n;
      assert x == n * (q + 1) + (x - n) % n;
      ModUnique(x, n, q + 1, (x - n) % n);
    }
  }

  /** Wrapping before adding does not change the wrapped sum. */
  lemma WrapAddShift(x: int, b: int, n: int)
    requires x >= 0 && b >= 0 && n >= 1
    ensures Wrap(Wrap(x, n) + b, n) == Wrap(x + b, n)
  {
    WrapIsMod(x, n);
    WrapIsMod(Wrap(x, n) + b, n);
    WrapIsMod(x + b, n);
    ModAddShift(x, b, n);
  }
}
