/**
 The values that the Go factorizer computes, returns and caches.
 */
module FactorTypes {
  newtype int64 = x: int | -0x8000_0000_0000_0000 <= x < 0x8000_0000_0000_0000

  datatype Factor = Factor(prime: int, exp: int)

  datatype Factorization = Factorization(n: int64, factors: seq<Factor>, isPrime: bool)
}
