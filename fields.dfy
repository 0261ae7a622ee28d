/** Values of the o1js proof system that the contracts work with. */
module Fields {

  /** Order of the Pallas base field: every o1js `Field` is an integer below it. */
  const MODULUS: nat := 28948022309329048855892746252171976963363056481941560715954676764349967630337

  /** A field element in canonical form. */
  type Field = x: nat | x < MODULUS

  /** `a.add(b)`: addition that wraps around the modulus. */
  function Add(a: Field, b: Field): (r: Field)
    ensures a + b < MODULUS ==> r == a + b
    ensures a + b >= MODULUS ==> r + MODULUS == a + b
  {
    (a + b) % MODULUS
  }

  const UINT64_BOUND: nat := 0x1_0000_0000_0000_0000

  /** `UInt64`: block heights and transaction nonces. */
  type UInt64 = x: nat | x < UINT64_BOUND

  /** A public key: the x-coordinate of a curve point and the parity of its y-coordinate. */
  datatype PublicKey = PublicKey(x: Field, isOdd: bool)
}

/** Outcomes of calls that either go through or fail an assertion. */
module Results {

  /** The outcome of a call that returns nothing: it passes or it fails with an error tag. */
  datatype Outcome<+E> = Pass | Fail(error: E)

  /** The outcome of a call that returns a value. */
  datatype Result<+T, +E> = Ok(value: T) | Err(error: E)
}
