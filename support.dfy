/** Unsigned helpers shared by the editor: the saturating subtraction of
    src/support.rs and the 16-bit integers the cursor is kept in. */
module Support {

  datatype Option<T> = None | Some(value: T)

  /** A Rust `u16`. */
  type U16 = x: int | 0 <= x < 0x1_0000

  /** The largest `u16`. */
  const U16Max: int := 0xFFFF

  /** Rust's `n as u16`: keep the low 16 bits, so a value that fits is
      kept and a larger one is reduced modulo 2^16. */
  function AsU16(n: nat): (r: U16)
    ensures r == n % 0x1_0000
    ensures n <= U16Max ==> r == n
    ensures n > U16Max ==> r < n
  {
    if n <= U16Max then n else n % 0x1_0000
  }

  function Min(a: int, b: int): int { if a <= b then a else b }

  function Max(a: int, b: int): int { if a <= b then b else a }

  /** `usubtraction(x, y)`: subtraction on unsigned values that gives 0
      instead of underflowing. The result is the least natural number
      r with r + y >= x. */
  function USub(x: nat, y: nat): (r: nat)
    ensures r <= x
    ensures r + y >= x
    ensures r == 0 || r + y == x
  {
    if y > x then 0 else x - y
  }

  /** The two identities of a saturating subtraction, and the fact that it
      coincides with ordinary subtraction exactly when y <= x. */
  lemma USubIdentities(x: nat, y: nat)
    ensures USub(x, 0) == x
    ensures USub(x, x) == 0
    ensures y <= x <==> USub(x, y) + y == x
    ensures y >= x <==> USub(x, y) == 0
  {
  }
}
