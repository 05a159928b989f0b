/** The 64-bit FNV-1a hash that places keys and virtual nodes on the ring. */
module Fnv {
  import opened Options

  const Basis: nat := 0xcbf2_9ce4_8422_2325
  const Prime: nat := 0x100_0000_01b3
  const PrimeInverse: nat := 0xce96_5057_aff6_957b

  type u8 = x: nat | x < 256

  function Pow2(n: nat): nat {
    if n == 0 then 1 else 2 * Pow2(n - 1)
  }

  /** Exclusive or of the lowest `bits` bits, the lowest bit last. */
  function XorBits(x: nat, y: nat, bits: nat): (r: nat)
    ensures r < Pow2(bits)
  {
    if bits == 0 then 0
    else 2 * XorBits(x / 2, y / 2, bits - 1) + (if x % 2 == y % 2 then 0 else 1)
  }

  lemma {:induction false} Pow2Add(m: nat, n: nat)
    ensures Pow2(m + n) == Pow2(m) * Pow2(n)
  {
    if 0 < m {
      Pow2Add(m - 1, n);
    }
  }

  lemma Pow64()
    ensures Pow2(64) == TWO_64
  {
    assert Pow2(1) == 2;
    Pow2Add(1, 1);
    Pow2Add(2, 2);
    Pow2Add(4, 4);
    Pow2Add(8, 8);
    Pow2Add(16, 16);
    Pow2Add(32, 32);
  }

  function Xor(h: u64, b: u8): u64 {
    Pow64();
    XorBits(h, b, 64)
  }

  function Times(h: u64, factor: nat): u64 {
    h * factor % TWO_64
  }

  function Mix(h: u64, b: u8): u64 {
    Times(Xor(h, b), Prime)
  }

  function Unmix(h: u64, b: u8): u64 {
    Xor(Times(h, PrimeInverse), b)
  }

  function Fold(h: u64, s: seq<u8>): u64 {
    if s == [] then h else Mix(Fold(h, s[..|s| - 1]), s[|s| - 1])
  }

  function Unfold(h: u64, s: seq<u8>): u64
    decreases |s|
  {
    if s == [] then h else Unfold(Unmix(h, s[|s| - 1]), s[..|s| - 1])
  }

  method Hash(s: seq<u8>) returns (h: u64)
    ensures h == Fold(Basis, s)
  {
    h := Basis;
    for i := 0 to |s|
      invariant h == Fold(Basis, s[..i])
    {
      assert s[..i + 1][..i] == s[..i];
      h := Xor(h, s[i]);
      h := Times(h, Prime);
    }
    assert s[..|s|] == s;
  }

  /** Multiplying by the prime and by its inverse cancel, either way round. */
  lemma {:induction false} TimesInverse(x: u64)
    ensures Times(Times(x, Prime), PrimeInverse) == x
    ensures Times(Times(x, PrimeInverse), Prime) == x
  {
    Cancel(x, Prime, PrimeInverse);
    Cancel(x, PrimeInverse, Prime);
  }

  lemma {:induction false} Cancel(x: u64, p: nat, q: nat)
    requires p * q % TWO_64 == 1
    ensures Times(Times(x, p), q) == x
  {
    var t, k := x * p / TWO_64, p * q / TWO_64;
    var y := x * p % TWO_64;
    assert y * q == (x * p - t * TWO_64) * q == x * (p * q) - t * TWO_64 * q == x * (k * TWO_64 + 1) - t * TWO_64 * q;
    assert y * q == x + (x * k - t * q) * TWO_64;
    Residue(x, x * k - t * q);
  }

  lemma Residue(x: u64, k: int)
    ensures (x + k * TWO_64) % TWO_64 == x
  {
  }

  lemma {:induction false} XorBitsTwice(x: nat, y: nat, bits: nat)
    requires x < Pow2(bits)
    ensures XorBits(XorBits(x, y, bits), y, bits) == x
  {
    if 0 < bits {
      var r := XorBits(x / 2, y / 2, bits - 1);
      XorBitsTwice(x / 2, y / 2, bits - 1);
      assert XorBits(x, y, bits) / 2 == r;
    }
  }

  lemma {:induction false} XorBitsCommute(x: nat, y: nat, bits: nat)
    ensures XorBits(x, y, bits) == XorBits(y, x, bits)
  {
    if 0 < bits {
      XorBitsCommute(x / 2, y / 2, bits - 1);
    }
  }

  lemma XorTwice(h: u64, b: u8)
    ensures Xor(Xor(h, b), b) == h
  {
    Pow64();
    XorBitsTwice(h, b, 64);
  }

  lemma XorSeparates(h: u64, b: u8, c: u8)
    ensures Xor(h, b) == Xor(h, c) <==> b == c
  {
    Pow64();
    XorBitsCommute(h, b, 64);
    XorBitsCommute(h, c, 64);
    XorBitsTwice(b, h, 64);
    XorBitsTwice(c, h, 64);
  }

  /** Each byte step is a bijection of the state. */
  lemma {:induction false} MixBijective(h: u64, b: u8)
    ensures Unmix(Mix(h, b), b) == h && Mix(Unmix(h, b), b) == h
  {
    TimesInverse(Xor(h, b));
    XorTwice(h, b);
    XorTwice(Times(h, PrimeInverse), b);
    TimesInverse(h);
  }

  /** From one state, different bytes lead to different states. */
  lemma MixSeparates(h: u64, b: u8, c: u8)
    ensures Mix(h, b) == Mix(h, c) <==> b == c
  {
    TimesInverse(Xor(h, b));
    TimesInverse(Xor(h, c));
    XorSeparates(h, b, c);
  }

  lemma {:induction false} FoldAppend(h: u64, s: seq<u8>, t: seq<u8>)
    ensures Fold(h, s + t) == Fold(Fold(h, s), t)
  {
    if t == [] {
      assert s + t == s;
    } else {
      var n := |t| - 1;
      assert (s + t)[..|s| + n] == s + t[..n];
      FoldAppend(h, s, t[..n]);
    }
  }

  /** Hashing a whole suffix is a bijection of the state it starts from. */
  lemma {:induction false} FoldBijective(h: u64, s: seq<u8>)
    ensures Unfold(Fold(h, s), s) == h && Fold(Unfold(h, s), s) == h
    decreases |s|
  {
    if s != [] {
      var init, last := s[..|s| - 1], s[|s| - 1];
      MixBijective(Fold(h, init), last);
      FoldBijective(h, init);
      MixBijective(h, last);
      FoldBijective(Unmix(h, last), init);
    }
  }

  /** A common suffix neither makes nor removes a collision. */
  lemma {:induction false} CommonSuffix(a: seq<u8>, b: seq<u8>, suffix: seq<u8>)
    ensures Fold(Basis, a + suffix) == Fold(Basis, b + suffix) <==> Fold(Basis, a) == Fold(Basis, b)
  {
    FoldAppend(Basis, a, suffix);
    FoldAppend(Basis, b, suffix);
    FoldBijective(Fold(Basis, a), suffix);
    FoldBijective(Fold(Basis, b), suffix);
  }

  /** Strings that differ in exactly one byte never collide. */
  lemma OneByte(s: seq<u8>, i: nat, b: u8)
    requires i < |s|
    ensures Fold(Basis, s) == Fold(Basis, s[i := b]) <==> s[i] == b
  {
    var head, tail := s[..i], s[i + 1..];
    assert s == (head + [s[i]]) + tail;
    assert s[i := b] == (head + [b]) + tail;
    CommonSuffix(head + [s[i]], head + [b], tail);
    assert (head + [s[i]])[..i] == head && (head + [b])[..i] == head;
    MixSeparates(Fold(Basis, head), s[i], b);
  }

  // ---------- the step is FNV-1a ----------

  function Bit(x: nat, i: nat): nat {
    if i == 0 then x % 2 else Bit(x / 2, i - 1)
  }

  /** Bit by bit, the exclusive or is one exactly where the two differ. */
  lemma {:induction false} XorBitwise(x: nat, y: nat, bits: nat, i: nat)
    requires i < bits
    ensures Bit(XorBits(x, y, bits), i) == if Bit(x, i) == Bit(y, i) then 0 else 1
  {
    var r := XorBits(x / 2, y / 2, bits - 1);
    assert XorBits(x, y, bits) / 2 == r;
    if 0 < i {
      XorBitwise(x / 2, y / 2, bits - 1, i - 1);
    }
  }

  lemma {:induction false} XorZero(x: nat, bits: nat)
    requires x < Pow2(bits)
    ensures XorBits(x, 0, bits) == x
  {
    if 0 < bits {
      XorZero(x / 2, bits - 1);
    }
  }

  /** A zero byte leaves the state to the multiplication alone. */
  lemma ZeroByte(h: u64)
    ensures Xor(h, 0) == h && Mix(h, 0) == h * 0x100_0000_01b3 % 0x1_0000_0000_0000_0000
  {
    Pow64();
    XorZero(h, 64);
  }

  /** Operands with nothing above their lowest `low` bits leave the bits above them alone. */
  lemma {:induction false} XorLow(q: nat, r: nat, y: nat, low: nat, high: nat)
    requires r < Pow2(low) && y < Pow2(low) && q < Pow2(high)
    ensures XorBits(q * Pow2(low) + r, y, low + high) == q * Pow2(low) + XorBits(r, y, low)
  {
    if low == 0 {
      XorZero(q, high);
    } else {
      var x, half := q * Pow2(low) + r, q * Pow2(low - 1);
      assert x == 2 * half + r;
      assert x / 2 == half + r / 2 && x % 2 == r % 2;
      XorLow(q, r / 2, y / 2, low - 1, high);
    }
  }

  lemma BytePowers()
    ensures Pow2(8) == 256 && Pow2(56) == 0x100_0000_0000_0000
  {
    Pow64();
    Pow2Add(56, 8);
    assert Pow2(4) == 2 * (2 * (2 * (2 * Pow2(0))));
    Pow2Add(4, 4);
  }

  /** The letter a against the offset basis: the lowest byte 0x25 becomes 0x44. */
  lemma BasisXorA()
    ensures Xor(0xcbf2_9ce4_8422_2325, 0x61) == 0xcbf2_9ce4_8422_2344
  {
    BytePowers();
    XorLow(0xcb_f29c_e484_2223, 0x25, 0x61, 8, 56);
    assert XorBits(0x25, 0x61, 8) == 0x44;
  }

  lemma TimesA()
    ensures Times(0xcbf2_9ce4_8422_2344, Prime) == 0xaf63_dc4c_8601_ec8c
  {
  }

  lemma FoldOne(h: u64, b: u8)
    ensures Fold(h, [b]) == Times(Xor(h, b), Prime)
  {
    assert [b][..0] == [];
  }

  /** Published test vectors: the empty input and the letter a. */
  lemma TestVectors(h: u64, a: u8)
    requires h == Basis && a == 0x61
    ensures Fold(h, []) == 0xcbf2_9ce4_8422_2325
    ensures Fold(h, [a]) == 0xaf63_dc4c_8601_ec8c
  {
    BasisXorA();
    FoldOne(h, a);
    TimesA();
  }
}
