/** Fingerprints: FNV-1a over the UTF-8 bytes of the canonical text (src/schema/types.rs).
    A `u64` is an integer below 2^64 and multiplication wraps explicitly. */
module Fingerprint {
  import opened SchemaTypes
  import opened CanonicalText

  const MODULUS := 0x1_0000_0000_0000_0000
  const OFFSET := 0xcbf29ce484222325
  const PRIME := 0x100000001b3
  /** The inverse of PRIME modulo 2^64: PRIME * INVERSE == 1 + QUOTIENT * MODULUS. */
  const INVERSE := 0xce965057aff6957b
  const QUOTIENT := 0xce9650590f

  type Byte = b: nat | b < 256

  function Pow2(n: nat): nat {
    if n == 0 then 1 else 2 * Pow2(n - 1)
  }

  /** Bitwise exclusive or of the low `bits` bits. */
  function Xor(a: nat, b: nat, bits: nat): nat {
    if bits == 0 then 0 else 2 * Xor(a / 2, b / 2, bits - 1) + (a + b) % 2
  }

  function Mix(hash: nat, byte: Byte): nat {
    Xor(hash, byte, 64) * PRIME % MODULUS
  }

  function FnvFrom(hash: nat, bytes: seq<Byte>): nat
    decreases |bytes|
  {
    if bytes == [] then hash else FnvFrom(Mix(hash, bytes[0]), bytes[1..])
  }

  function Fnv1a64(bytes: seq<Byte>): nat {
    FnvFrom(OFFSET, bytes)
  }

  method HashBytes(bytes: seq<Byte>) returns (hash: nat)
    ensures hash == Fnv1a64(bytes)
    ensures hash < MODULUS
  {
    hash := OFFSET;
    for i := 0 to |bytes|
      invariant hash < MODULUS
      invariant Fnv1a64(bytes) == FnvFrom(hash, bytes[i..])
    {
      hash := Xor(hash, bytes[i], 64);
      hash := hash * PRIME % MODULUS;
      assert bytes[i..][1..] == bytes[i + 1..];
    }
  }

  lemma {:induction false} XorBound(a: nat, b: nat, bits: nat)
    ensures Xor(a, b, bits) < Pow2(bits)
  {
    if bits > 0 { XorBound(a / 2, b / 2, bits - 1); }
  }

  /** A number is its half and its last bit; equal results have equal halves and equal bits. */
  lemma SameHalves(x: nat, y: nat, r: nat, t: nat)
    requires r < 2 && t < 2 && 2 * x + r == 2 * y + t
    ensures x == y && r == t
  {
  }

  lemma SameBit(a: nat, b: nat, mask: nat)
    requires (a + mask) % 2 == (b + mask) % 2 && a / 2 == b / 2
    ensures a == b
  {
    assert a == 2 * (a / 2) + a % 2 && b == 2 * (b / 2) + b % 2;
  }

  lemma {:induction false} XorInjectiveLeft(a: nat, b: nat, mask: nat, bits: nat)
    requires a < Pow2(bits) && b < Pow2(bits)
    requires Xor(a, mask, bits) == Xor(b, mask, bits)
    ensures a == b
  {
    if bits > 0 {
      SameHalves(Xor(a / 2, mask / 2, bits - 1), Xor(b / 2, mask / 2, bits - 1), (a + mask) % 2, (b + mask) % 2);
      XorInjectiveLeft(a / 2, b / 2, mask / 2, bits - 1);
      SameBit(a, b, mask);
    }
  }

  lemma {:induction false} XorCommutes(a: nat, b: nat, bits: nat)
    ensures Xor(a, b, bits) == Xor(b, a, bits)
  {
    if bits > 0 {
      XorCommutes(a / 2, b / 2, bits - 1);
    }
  }

  lemma XorInjectiveRight(a: nat, x: nat, y: nat, bits: nat)
    requires x < Pow2(bits) && y < Pow2(bits)
    requires Xor(a, x, bits) == Xor(a, y, bits)
    ensures x == y
  {
    XorCommutes(a, x, bits);
    XorCommutes(a, y, bits);
    XorInjectiveLeft(x, y, a, bits);
  }

  /** Multiplying by the odd prime loses nothing modulo 2^64. */
  lemma MultiplyInjective(x: nat, y: nat)
    requires x < MODULUS && y < MODULUS
    requires x * PRIME % MODULUS == y * PRIME % MODULUS
    ensures x == y
  {
    assert PRIME * INVERSE == 1 + QUOTIENT * MODULUS;
    var j := x * PRIME / MODULUS - y * PRIME / MODULUS;
    assert (x - y) * PRIME == j * MODULUS;
    assert (x - y) == MODULUS * (j * INVERSE - QUOTIENT * (x - y));
  }

  lemma Pow64()
    ensures Pow2(64) == MODULUS
  {
    assert Pow2(8) == 0x100;
    assert Pow2(16) == 0x1_0000;
    assert Pow2(24) == 0x100_0000;
    assert Pow2(32) == 0x1_0000_0000;
    assert Pow2(40) == 0x100_0000_0000;
    assert Pow2(48) == 0x1_0000_0000_0000;
    assert Pow2(56) == 0x100_0000_0000_0000;
  }

  lemma MixBound(hash: nat, byte: Byte)
    ensures Mix(hash, byte) < MODULUS
  {
  }

  /** One step is a bijection of the hash state, whatever the byte. */
  lemma MixInjectiveInHash(a: nat, b: nat, byte: Byte)
    requires a < MODULUS && b < MODULUS && Mix(a, byte) == Mix(b, byte)
    ensures a == b
  {
    Pow64();
    XorBound(a, byte, 64);
    XorBound(b, byte, 64);
    MultiplyInjective(Xor(a, byte, 64), Xor(b, byte, 64));
    XorInjectiveLeft(a, b, byte, 64);
  }

  /** From one state, different bytes lead to different states. */
  lemma MixInjectiveInByte(hash: nat, x: Byte, y: Byte)
    requires Mix(hash, x) == Mix(hash, y)
    ensures x == y
  {
    Pow64();
    XorBound(hash, x, 64);
    XorBound(hash, y, 64);
    MultiplyInjective(Xor(hash, x, 64), Xor(hash, y, 64));
    XorInjectiveRight(hash, x, y, 64);
  }

  lemma {:induction false} SameSuffixKeepsApart(a: nat, b: nat, bytes: seq<Byte>)
    requires a < MODULUS && b < MODULUS && a != b
    ensures FnvFrom(a, bytes) != FnvFrom(b, bytes)
    decreases |bytes|
  {
    if bytes != [] {
      MixBound(a, bytes[0]);
      MixBound(b, bytes[0]);
      if Mix(a, bytes[0]) == Mix(b, bytes[0]) { MixInjectiveInHash(a, b, bytes[0]); }
      SameSuffixKeepsApart(Mix(a, bytes[0]), Mix(b, bytes[0]), bytes[1..]);
    }
  }

  lemma {:induction false} SingleByteFrom(hash: nat, a: seq<Byte>, b: seq<Byte>, k: nat)
    requires hash < MODULUS
    requires |a| == |b| && k < |a| && a[k] != b[k]
    requires forall i :: 0 <= i < |a| && i != k ==> a[i] == b[i]
    ensures FnvFrom(hash, a) != FnvFrom(hash, b)
    decreases k
  {
    if k == 0 {
      assert a[1..] == b[1..];
      if Mix(hash, a[0]) == Mix(hash, b[0]) { MixInjectiveInByte(hash, a[0], b[0]); }
      MixBound(hash, a[0]);
      MixBound(hash, b[0]);
      SameSuffixKeepsApart(Mix(hash, a[0]), Mix(hash, b[0]), a[1..]);
    } else {
      MixBound(hash, a[0]);
      SingleByteFrom(Mix(hash, a[0]), a[1..], b[1..], k - 1);
    }
  }

  /** Byte strings of one length that differ in exactly one place hash differently. */
  lemma FnvSingleByte(a: seq<Byte>, b: seq<Byte>, k: nat)
    requires |a| == |b| && k < |a| && a[k] != b[k]
    requires forall i :: 0 <= i < |a| && i != k ==> a[i] == b[i]
    ensures Fnv1a64(a) != Fnv1a64(b)
  {
    SingleByteFrom(OFFSET, a, b, k);
  }

  /** The UTF-8 encoding of one character. */
  function Utf8Char(c: char): seq<Byte> {
    var n := c as int;
    if n < 0x80 then [n]
    else if n < 0x800 then [0xc0 + n / 0x40, 0x80 + n % 0x40]
    else if n < 0x1_0000 then [0xe0 + n / 0x1000, 0x80 + n / 0x40 % 0x40, 0x80 + n % 0x40]
    else [0xf0 + n / 0x4_0000, 0x80 + n / 0x1000 % 0x40, 0x80 + n / 0x40 % 0x40, 0x80 + n % 0x40]
  }

  function Utf8(s: string): seq<Byte> {
    if s == "" then [] else Utf8Char(s[0]) + Utf8(s[1..])
  }

  /** `SchemaDef::fingerprint`, before its sixteen hexadecimal digits are printed. */
  function FingerprintOf(s: SchemaDef): nat {
    Fnv1a64(Utf8(Canonical(s)))
  }

  lemma {:induction false} Utf8Append(a: string, b: string)
    ensures Utf8(a + b) == Utf8(a) + Utf8(b)
  {
    if a == "" {
      assert a + b == b;
    } else {
      assert (a + b)[1..] == a[1..] + b;
      Utf8Append(a[1..], b);
    }
  }

  /** Canonical texts that differ in one ASCII character, such as a flipped flag, have different
      fingerprints: an edit of that kind is always noticed as drift. */
  lemma OneCharacterIsNoticed(before: string, x: char, y: char, after: string)
    requires x != y && x < '\U{0080}' && y < '\U{0080}'
    ensures Fnv1a64(Utf8(before + [x] + after)) != Fnv1a64(Utf8(before + [y] + after))
  {
    hide Fnv1a64;
    Utf8Around(before, x, after);
    Utf8Around(before, y, after);
    var head, tail := Utf8(before), Utf8(after);
    FnvSingleByte(head + [x as int] + tail, head + [y as int] + tail, |head|);
  }

  lemma Utf8Around(before: string, c: char, after: string)
    requires c < '\U{0080}'
    ensures Utf8(before + [c] + after) == Utf8(before) + [c as int] + Utf8(after)
  {
    Utf8Append(before + [c], after);
    Utf8Append(before, [c]);
    assert Utf8([c]) == Utf8Char(c) + Utf8([c][1..]) && Utf8([c][1..]) == [];
  }
}
