/** Where section 2.6 takes the initial state from: the first 64 bits of the fractions of the square
    roots of the first eight primes. */
module Roots {
  import opened Words
  import opened Rfc7693

  const PRIMES: seq<nat> := [2, 3, 5, 7, 11, 13, 17, 19]

  /** The integer parts of their square roots. */
  const WHOLE: seq<nat> := [1, 1, 2, 2, 3, 3, 4, 4]

  lemma Value0()
    ensures Value(0x6a09e667f3bcc908) == 0x6a09e667f3bcc908
  {
  }

  lemma Value1()
    ensures Value(0xbb67ae8584caa73b) == 0xbb67ae8584caa73b
  {
  }

  lemma Value2()
    ensures Value(0x3c6ef372fe94f82b) == 0x3c6ef372fe94f82b
  {
  }

  lemma Value3()
    ensures Value(0xa54ff53a5f1d36f1) == 0xa54ff53a5f1d36f1
  {
  }

  lemma Value4()
    ensures Value(0x510e527fade682d1) == 0x510e527fade682d1
  {
  }

  lemma Value5()
    ensures Value(0x9b05688c2b3e6c1f) == 0x9b05688c2b3e6c1f
  {
  }

  lemma Value6()
    ensures Value(0x1f83d9abfb41bd6b) == 0x1f83d9abfb41bd6b
  {
  }

  lemma Value7()
    ensures Value(0x5be0cd19137e2179) == 0x5be0cd19137e2179
  {
  }

  function IvValue(i: nat): U64
    requires i < 8
  {
    match i
    case 0 => 0x6a09e667f3bcc908
    case 1 => 0xbb67ae8584caa73b
    case 2 => 0x3c6ef372fe94f82b
    case 3 => 0xa54ff53a5f1d36f1
    case 4 => 0x510e527fade682d1
    case 5 => 0x9b05688c2b3e6c1f
    case 6 => 0x1f83d9abfb41bd6b
    case _ => 0x5be0cd19137e2179
  }

  lemma ValueOfIv(i: nat)
    requires i < 8
    ensures Value(IV[i]) == IvValue(i)
  {
    hide Value;
    match i
    case 0 => Value0();
    case 1 => Value1();
    case 2 => Value2();
    case 3 => Value3();
    case 4 => Value4();
    case 5 => Value5();
    case 6 => Value6();
    case _ => Value7();
  }

  /** IV[i] is floor(2^64 * sqrt(p)) for the i-th prime p, less its whole part. */
  lemma IvIsRoot(i: nat)
    requires i < 8
    ensures var s := Value(IV[i]) + WHOLE[i] * TWO64;
            s * s <= PRIMES[i] * TWO128 < (s + 1) * (s + 1)
  {
    hide Value;
    ValueOfIv(i);
    match i
    case 0 => case 1 => case 2 => case 3 => case 4 => case 5 => case 6 => case _ =>
  }
}
