/** The C type `u_int` of the sources: 32-bit unsigned arithmetic that wraps around. */
module U32 {

  const MOD: nat := 0x1_0000_0000

  function Add(a: nat, b: nat): (r: nat)
    ensures r < MOD
    ensures a + b < MOD ==> r == a + b
  {
    (a + b) % MOD
  }

  function Sub(a: nat, b: nat): (r: nat)
    ensures r < MOD
    ensures b <= a < MOD ==> r == a - b
  {
    (a - b) % MOD
  }

  function Mul(a: nat, b: nat): (r: nat)
    ensures r < MOD
    ensures r <= a * b
    ensures a * b < MOD ==> r == a * b
  {
    var p := a * b;
    p % MOD
  }

  function Min(a: nat, b: nat): (r: nat)
    ensures r <= a && r <= b && (r == a || r == b)
  {
    if a <= b then a else b
  }
}

/** Octets, as held by every buffer and wire message of the sources. */
module Octets {
  type byte = x: int | 0 <= x < 256

  datatype Option<+T> = None | Some(value: T)
}
