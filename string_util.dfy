/** The string hash of the platform layer. */
module StringUtil {
  import opened Settings

  const Modulus: int := 0x1_0000_0000

  /** `char` is signed on the target compiler: a byte of 128 or more is read as
      a negative value when it is promoted for the addition. */
  function SignExtend(b: Byte): (v: int)
    ensures -128 <= v < 128
    ensures v % 256 == b
  {
    if b < 128 then b else b - 256
  }

  /** One step of the hash: multiply by 101 and add the character, in
      unsigned 32-bit arithmetic. */
  function Step(hash: Uint, b: Byte): Uint
  {
    (hash * 101 + SignExtend(b)) % Modulus
  }

  /** The hash of `s` from `seed`, character by character from the front. */
  function Hash(s: seq<Byte>, seed: Uint): Uint
  {
    if |s| == 0 then seed else Step(Hash(s[..|s| - 1], seed), s[|s| - 1])
  }

  /** The same recurrence over unbounded integers, without wrap-around. */
  function Polynomial(s: seq<Byte>, seed: Uint): int
  {
    if |s| == 0 then seed else Polynomial(s[..|s| - 1], seed) * 101 + SignExtend(s[|s| - 1])
  }

  /** `StringHash(path, seed)`: the loop folds `Step` over the characters. */
  method StringHash(path: seq<Byte>, seed: Uint) returns (hash: Uint)
    ensures hash == Hash(path, seed)
    ensures hash == Polynomial(path, seed) % Modulus
  {
    hash := seed;
    for i := 0 to |path|
      invariant hash == Hash(path[..i], seed)
    {
      assert path[..i + 1][..i] == path[..i];
      hash := (hash * 101 + SignExtend(path[i])) % Modulus;
    }
    assert path[..|path|] == path;
    HashIsPolynomialModulo(path, seed);
  }

  /** Reducing before multiplying does not change the residue. */
  lemma ModuloStep(a: int, c: int)
    ensures ((a % Modulus) * 101 + c) % Modulus == (a * 101 + c) % Modulus
  {
    var q := a / Modulus;
    var r := a % Modulus;
    assert a == q * Modulus + r;
    var k := q * 101;
    assert a * 101 + c == k * Modulus + (r * 101 + c) by {
      assert a * 101 == (q * Modulus) * 101 + r * 101;
      assert (q * Modulus) * 101 == (q * 101) * Modulus;
    }
    ShiftModulo(k, r * 101 + c);
  }

  lemma ShiftModulo(k: int, y: int)
    ensures (k * Modulus + y) % Modulus == y % Modulus
  {
  }

  /** The wrapped hash is the unbounded polynomial reduced modulo 2^32. */
  lemma {:induction false} HashIsPolynomialModulo(s: seq<Byte>, seed: Uint)
    ensures Hash(s, seed) == Polynomial(s, seed) % Modulus
  {
    if |s| > 0 {
      var init := s[..|s| - 1];
      HashIsPolynomialModulo(init, seed);
      ModuloStep(Polynomial(init, seed), SignExtend(s[|s| - 1]));
    }
  }

  /** Hashing a concatenation continues from the hash of the first part. */
  lemma {:induction false} HashConcat(a: seq<Byte>, b: seq<Byte>, seed: Uint)
    ensures Hash(a + b, seed) == Hash(b, Hash(a, seed))
    decreases |b|
  {
    if |b| == 0 {
      assert a + b == a;
    } else {
      var init := b[..|b| - 1];
      assert (a + b)[..|a + b| - 1] == a + init;
      HashConcat(a, init, seed);
    }
  }

  /** Appending a character multiplies the hash by 101 and adds the
      character's value, modulo 2^32. */
  lemma HashAppend(s: seq<Byte>, c: Byte, seed: Uint)
    ensures Hash(s + [c], seed) == (Hash(s, seed) * 101 + SignExtend(c)) % Modulus
  {
    assert (s + [c])[..|s|] == s;
  }

  /** The empty string hashes to the seed, a single character to one step. */
  lemma HashShort(c: Byte, seed: Uint)
    ensures Hash([], seed) == seed
    ensures Hash([c], seed) == (seed * 101 + SignExtend(c)) % Modulus
  {
    assert [c][..0] == [];
  }

  /** For 7-bit characters the sign extension is invisible, while a byte such
      as 0xE9 subtracts from the hash instead of adding 233. */
  lemma HighBytesSubtract()
    ensures Hash([0x41], 0) == 0x41
    ensures Hash([0xE9], 0) == Modulus - 23
  {
    HashShort(0x41, 0);
    HashShort(0xE9, 0);
  }
}
