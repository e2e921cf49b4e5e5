/** The implemented parts of the crypto domain: the curve point value and the
    symmetric key holder. Curve arithmetic and key derivation exist in the
    source only as interfaces and are not part of this model. */
module EllipticCurve {
  import opened Wrappers
  import opened Encoding
  import Buffers

  /** A curve point whose coordinates are big integers that may be nil. */
  datatype Point = Point(x: Option<int>, y: Option<int>)

  function NewPoint(x: Option<int>, y: Option<int>): (p: Option<Point>)
    ensures p.Some? && p.value.x == x && p.value.y == y
  {
    Some(Point(x, y))
  }

  /** The point at infinity is a nil point, or one with both coordinates nil. */
  function IsPointAtInfinity(p: Option<Point>): (r: bool)
    ensures r <==> p == None || p == Some(Point(None, None))
  {
    p == None || (p.value.x == None && p.value.y == None)
  }

  /** The nil point is at infinity; a point built from two coordinates is at
      infinity exactly when neither coordinate is given, so a half-set point
      is not. */
  lemma NewPointInfinityIff(x: Option<int>, y: Option<int>)
    ensures IsPointAtInfinity(None)
    ensures IsPointAtInfinity(NewPoint(x, y)) <==> x.None? && y.None?
  {
  }

  /** An AES key that owns its buffer: it copies on the way in and out and
      can be erased in place. */
  class AESKey {
    var key: array<uint8>

    /** `NewAESKey`: the key holds a fresh copy of the input, so later
        writes to the input do not reach it. */
    constructor NewAESKey(keyBytes: array<uint8>)
      ensures fresh(key)
      ensures key[..] == keyBytes[..]
    {
      var copied := Buffers.CopyOf(keyBytes);
      key := copied;
    }

    /** `Bytes`: a fresh copy of the key material; the key is not changed. */
    method Bytes() returns (r: array<uint8>)
      ensures fresh(r)
      ensures r[..] == key[..]
    {
      r := Buffers.CopyOf(key);
    }

    /** `Clear`: every byte becomes zero; the length is kept. Clearing a
        cleared key leaves it as it is. */
    method Clear()
      modifies key
      ensures key[..] == Zeroed(old(key[..]))
    {
      Buffers.ZeroFill(key);
    }
  }
}
