/** Types and machine arithmetic shared by the components. */
module Common {

  datatype Option<+T> = None | Some(value: T)

  datatype Side = Buy | Sell

  const WORD32: int := 0x1_0000_0000

  /** Arithmetic on uint32_t wraps around. */
  function U32(x: int): (r: nat)
    ensures r < WORD32
  {
    x % WORD32
  }

  /** Integer division that rounds toward zero, as in C++ (Dafny's `/` is Euclidean). */
  function TruncDiv(a: int, b: int): (q: int)
    requires b > 0
    ensures a >= 0 ==> q >= 0 && q * b <= a < q * b + b
    ensures a < 0 ==> q <= 0 && q * b - b < a <= q * b
  {
    if a >= 0 then Quotient(a, b)
    else
      var q := Quotient(0 - a, b);
      assert (0 - q) * b == 0 - q * b;
      0 - q
  }

  function Quotient(a: nat, b: nat): (q: nat)
    requires b > 0
    ensures q * b <= a < q * b + b
  {
    var q := a / b;
    assert a == b * q + a % b;
    assert b * q == q * b;
    q
  }

  function Min(a: int, b: int): int {
    if a < b then a else b
  }

  function Max(a: int, b: int): int {
    if a > b then a else b
  }

  function Abs(a: int): nat {
    if a < 0 then -a else a
  }
}
