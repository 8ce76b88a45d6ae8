/** Facts about integers that the other modules use, kept where nothing else is in sight of the solver. */
module Arithmetic {

  lemma ByteSuccessor(b: bv8)
    requires b != 255
    ensures (b + 1) as int == b as int + 1
  {
  }

  lemma {:induction false} SomeByte(n: nat) returns (b: bv8)
    requires n < 256
    ensures b as int == n
  {
    if n == 0 {
      b := 0;
    } else {
      b := SomeByte(n - 1);
      ByteSuccessor(b);
      b := b + 1;
    }
  }

  // ----- bytes as numbers -----

  function ByteValue(b: bv8): (n: nat) { b as int }
  function Plus(a: bv8, b: bv8): bv8 { a + b }

  /** The sum of two bytes does not fit a byte. */
  predicate Wraps(a: bv8, b: bv8) { a + b < a }

  lemma ByteEnds()
    ensures ByteValue(0) == 0 && ByteValue(1) == 1 && ByteValue(255) == 255
  {
  }

  lemma Before(b: bv8) returns (p: bv8)
    requires b != 0
    ensures p < b && p != 255 && Plus(p, 1) == b
  {
    p := b - 1;
  }

  lemma PlusValue(b: bv8)
    requires b != 255
    ensures ByteValue(Plus(b, 1)) == ByteValue(b) + 1
  {
    ByteSuccessor(b);
  }

  lemma PlusZero(a: bv8)
    ensures Plus(a, 0) == a && !Wraps(a, 0)
  {
  }

  lemma PlusNext(a: bv8, p: bv8)
    requires p != 255
    ensures Plus(a, Plus(p, 1)) == Plus(Plus(a, p), 1)
    ensures Plus(a, p) == 255 ==> Plus(a, Plus(p, 1)) == 0 && !Wraps(a, p) && Wraps(a, Plus(p, 1))
    ensures Plus(a, p) != 255 ==> (Wraps(a, Plus(p, 1)) <==> Wraps(a, p))
  {
  }

  /** Eight-bit addition is addition of values, 256 short when it wraps. */
  lemma {:induction false} ByteSum(a: bv8, b: bv8)
    ensures ByteValue(a) + ByteValue(b) == ByteValue(Plus(a, b)) + if Wraps(a, b) then 256 else 0
    decreases b
  {
    hide ByteValue, Plus, Wraps;
    ByteEnds();
    if b == 0 {
      PlusZero(a);
    } else {
      var p := Before(b);
      PlusValue(p);
      ByteSum(a, p);
      if Plus(a, p) != 255 {
        PlusValue(Plus(a, p));
      }
      PlusNext(a, p);
    }
  }

  lemma ByteOfItsValue(b: bv8)
    ensures (b as int) as bv8 == b
  {
  }

  lemma ByteRoundTrip(x: int)
    requires 0 <= x < 256
    ensures (x as bv8) as int == x
  {
    var b := SomeByte(x);
    ByteOfItsValue(b);
  }

  /** Adding a multiple of 2^64. */
  lemma ModTwo64(x: int, q: int)
    ensures (x + 0x1_0000_0000_0000_0000 * q) % 0x1_0000_0000_0000_0000 == x % 0x1_0000_0000_0000_0000
    ensures (x + 0x1_0000_0000_0000_0000 * q) / 0x1_0000_0000_0000_0000 == x / 0x1_0000_0000_0000_0000 + q
  {
  }

  lemma AddMod(b: nat, c: nat)
    ensures (b + c) % 0x1_0000_0000_0000_0000 == (b % 0x1_0000_0000_0000_0000 + c) % 0x1_0000_0000_0000_0000
  {
    ModTwo64(b % 0x1_0000_0000_0000_0000 + c, b / 0x1_0000_0000_0000_0000);
  }

  /** One word's addition: the low sum wraps exactly when it ends below the addend, and then carries one. */
  lemma Carry(t: nat, n: nat)
    requires n < 0x1_0000_0000_0000_0000
    ensures var lo := (t % 0x1_0000_0000_0000_0000 + n) % 0x1_0000_0000_0000_0000;
            && (t + n) % 0x1_0000_0000_0000_0000 == lo
            && (t + n) / 0x1_0000_0000_0000_0000 == t / 0x1_0000_0000_0000_0000 + if lo < n then 1 else 0
  {
    ModTwo64(t % 0x1_0000_0000_0000_0000 + n, t / 0x1_0000_0000_0000_0000);
  }

  /** A two-word counter taken apart again. */
  lemma TwoWords(lo: nat, hi: nat)
    requires lo < 0x1_0000_0000_0000_0000 && hi < 0x1_0000_0000_0000_0000
    ensures (lo + 0x1_0000_0000_0000_0000 * hi) % 0x1_0000_0000_0000_0000 == lo
    ensures (lo + 0x1_0000_0000_0000_0000 * hi) / 0x1_0000_0000_0000_0000 == hi
  {
    ModTwo64(lo, hi);
  }
}
