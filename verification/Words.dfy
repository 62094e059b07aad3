/**
 Machine words and the two integer disciplines the system mixes: the Rust side's 256-bit integers
 wrap around, the contract's 256-bit integers revert on overflow, and a pair's reserves are 112 bits.
 */
module Words {

  const TWO_64: nat := 0x1_0000_0000_0000_0000
  const TWO_112: nat := 0x1_0000_0000_0000_0000_0000_0000_0000
  const TWO_128: nat := TWO_64 * TWO_64
  const TWO_160: nat := 0x1_0000_0000_0000_0000_0000_0000_0000_0000_0000_0000
  const TWO_256: nat := 0x1_0000_0000_0000_0000_0000_0000_0000_0000_0000_0000_0000_0000_0000_0000_0000_0000

  /** 10^18: one ether in wei, and the scale of prices. */
  const ONE_ETHER: nat := 1_000_000_000_000_000_000

  type U64 = x: nat | x < TWO_64
  type U128 = x: nat | x < TWO_128
  type U256 = x: nat | x < TWO_256
  type Address = a: nat | a < TWO_160

  datatype Option<+T> = None | Some(value: T)

  function Pow10(exp: nat): (r: nat)
    ensures r > 0
  {
    if exp == 0 then 1 else 10 * Pow10(exp - 1)
  }

  /** Reduction modulo 2^256, written by repeated subtraction so that it costs nothing below 2^256. */
  function Wrap(n: nat): U256 {
    if n < TWO_256 then n else Wrap(n - TWO_256)
  }

  lemma {:induction false} WrapIsModulo(n: nat)
    ensures Wrap(n) == n % TWO_256
  {
    if n >= TWO_256 {
      WrapIsModulo(n - TWO_256);
    }
  }

  /** Multiplication and addition of the Rust `U256`: modulo 2^256. */
  function WrapMul(a: U256, b: U256): U256 {
    Wrap(a * b)
  }

  function WrapAdd(a: U256, b: U256): U256 {
    Wrap(a + b)
  }

  /** Multiplication and addition of Solidity 0.8 `uint256`: `None` is a revert. */
  function CheckedMul(a: U256, b: U256): Option<U256> {
    if a * b < TWO_256 then Some(a * b) else None
  }

  function CheckedAdd(a: U256, b: U256): Option<U256> {
    if a + b < TWO_256 then Some(a + b) else None
  }
}
