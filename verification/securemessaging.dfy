/** The secure-messaging domain values: the Send Sequence Counter and the
    protected message container. */
module SecureMessaging {
  import opened Encoding

  const UINT64_MODULUS: nat := 0x1_0000_0000_0000_0000

  /** A 64-bit unsigned counter; Go's `uint64` increment wraps at 2^64. */
  datatype SendSequenceCounter = SendSequenceCounter(value: uint64)

  function NewSendSequenceCounter(): (s: SendSequenceCounter)
    ensures s.value == 0
  {
    SendSequenceCounter(0)
  }

  /** Adds one, modulo 2^64. */
  function Increment(s: SendSequenceCounter): (r: SendSequenceCounter)
    ensures s.value < UINT64_MODULUS - 1 ==> r.value == s.value + 1
    ensures s.value == UINT64_MODULUS - 1 ==> r.value == 0
  {
    SendSequenceCounter((s.value + 1) % UINT64_MODULUS)
  }

  /** `Value()`: the number the counter's 8-byte encoding denotes. */
  function Value(s: SendSequenceCounter): (v: uint64)
    ensures v == BigEndianValue(Bytes(s))
  {
    BytesIsBigEndian(s);
    s.value
  }

  function Pow256(n: nat): (p: nat)
    ensures p >= 1
  {
    if n == 0 then 1 else 256 * Pow256(n - 1)
  }

  /** `Bytes()`: byte i is `(value >> (56 - 8 i)) & 0xFF`, i.e. the value's
      base-256 digit of weight 256^(7 - i). */
  function Bytes(s: SendSequenceCounter): (b: seq<uint8>)
    ensures |b| == 8
  {
    seq(8, i requires 0 <= i < 8 => (s.value / Pow256(7 - i)) % 256)
  }

  /** The number a big-endian byte string denotes: sum of b[i] * 256^(|b|-1-i). */
  function BigEndianValue(b: seq<uint8>): nat {
    if |b| == 0 then 0 else BigEndianValue(b[..|b| - 1]) * 256 + b[|b| - 1]
  }

  lemma DivUnique(v: nat, m: nat, q: nat, r: nat)
    requires m > 0 && r < m && v == q * m + r
    ensures v / m == q && v % m == r
  {
    var q0 := v / m;
    var r0 := v % m;
    assert v == q0 * m + r0;
    if q > q0 {
      assert (q - q0) * m == q * m - q0 * m;
      MulAtLeast(q - q0, m);
    } else if q < q0 {
      assert (q0 - q) * m == q0 * m - q * m;
      MulAtLeast(q0 - q, m);
    }
  }

  lemma MulAtLeast(a: nat, m: nat)
    requires a >= 1
    ensures a * m >= m
  {
    assert a * m == (a - 1) * m + m;
  }

  lemma DivDiv(v: nat, a: nat, b: nat)
    requires a > 0 && b > 0
    ensures v / (a * b) == (v / a) / b
  {
    var q := v / a;
    Recombine(v, a, b, q, v % a, q / b, q % b);
    DivUnique(v, a * b, q / b, (q % b) * a + v % a);
  }

  /** Two successive divisions, put back together. */
  lemma Recombine(v: nat, a: nat, b: nat, q: nat, r1: nat, q2: nat, r2: nat)
    requires a > 0 && b > 0
    requires v == q * a + r1 && r1 < a
    requires q == q2 * b + r2 && r2 < b
    ensures v == q2 * (a * b) + (r2 * a + r1)
    ensures r2 * a + r1 < a * b
  {
    assert q * a == q2 * (a * b) + r2 * a by {
      MulAddRight(q2 * b, r2, a);
      assert (q2 * b) * a == q2 * (a * b);
    }
    assert r2 * a + r1 < a * b by {
      MulMonoRight(r2, b - 1, a);
      MulAddRight(b - 1, 1, a);
    }
  }

  lemma MulAddRight(x: nat, y: nat, a: nat)
    ensures (x + y) * a == x * a + y * a
  {
  }

  lemma MulMonoRight(x: nat, y: nat, a: nat)
    requires x <= y
    ensures x * a <= y * a
  {
    MulAddRight(x, y - x, a);
  }

  lemma Pow256Eight()
    ensures Pow256(8) == UINT64_MODULUS
  {
  }

  /** The first k bytes of the encoding denote the value's top k digits. */
  lemma {:induction false} BytesPrefixValue(s: SendSequenceCounter, k: nat)
    requires k <= 8
    ensures BigEndianValue(Bytes(s)[..k]) == s.value / Pow256(8 - k)
  {
    var b := Bytes(s);
    if k == 0 {
      Pow256Eight();
      DivUnique(s.value, Pow256(8), 0, s.value);
    } else {
      BytesPrefixValue(s, k - 1);
      assert b[..k][..k - 1] == b[..k - 1];
      var d := Pow256(8 - k);
      var q := s.value / d;
      assert Pow256(8 - (k - 1)) == 256 * d;
      DivDiv(s.value, d, 256);
      assert s.value / Pow256(8 - (k - 1)) == q / 256 by {
        assert d * 256 == 256 * d;
      }
      assert b[k - 1] == q % 256;
    }
  }

  /** `Bytes()` is the 8-byte big-endian encoding of the counter's value. */
  lemma BytesIsBigEndian(s: SendSequenceCounter)
    ensures BigEndianValue(Bytes(s)) == s.value
  {
    BytesPrefixValue(s, 8);
    assert Bytes(s)[..8] == Bytes(s);
  }

  /** Distinct counters serialise differently. */
  lemma BytesInjective(s: SendSequenceCounter, t: SendSequenceCounter)
    ensures Bytes(s) == Bytes(t) ==> s == t
  {
    BytesIsBigEndian(s);
    BytesIsBigEndian(t);
  }

  /** A fresh counter serialises as eight zero bytes. */
  lemma NewCounterBytesZero()
    ensures Bytes(NewSendSequenceCounter()) == [0, 0, 0, 0, 0, 0, 0, 0]
  {
  }

  function IncrementTimes(s: SendSequenceCounter, k: nat): SendSequenceCounter {
    if k == 0 then s else Increment(IncrementTimes(s, k - 1))
  }

  /** After k increments of a fresh counter, k below 2^64, the value is k and
      the encoding is k in big-endian. */
  lemma {:induction false} IncrementTimesValue(k: nat)
    requires k < UINT64_MODULUS
    ensures Value(IncrementTimes(NewSendSequenceCounter(), k)) == k
    ensures BigEndianValue(Bytes(IncrementTimes(NewSendSequenceCounter(), k))) == k
  {
    if k > 0 {
      IncrementTimesValue(k - 1);
    }
    BytesIsBigEndian(IncrementTimes(NewSendSequenceCounter(), k));
  }

  /** An encrypted command body with its authentication tag. */
  datatype SecureMessage = SecureMessage(encryptedData: seq<uint8>, cmac: seq<uint8>)

  function NewSecureMessage(encrypted: seq<uint8>, cmac: seq<uint8>): (m: SecureMessage)
    ensures m.encryptedData == encrypted && m.cmac == cmac
  {
    SecureMessage(encrypted, cmac)
  }
}
