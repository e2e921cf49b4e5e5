/** The PACE secret holders. `NewPassword` and `NewNonce` allocate a
    zero-filled buffer of the input's length and do not copy the input, and
    `Bytes` hands out the internal buffer itself; the model keeps both
    behaviours. */
module PaceSecrets {
  import opened Encoding
  import Buffers

  /** Password kinds, numbered as Go's `iota`. */
  type PasswordType = int

  const PasswordTypePIN: PasswordType := 0
  const PasswordTypeCSAN: PasswordType := 1

  class Password {
    var value: array<uint8>
    var typ: PasswordType

    /** `NewPassword`: a fresh buffer of the input's length, all zero. The
        input's bytes are not copied. */
    constructor NewPassword(input: array<uint8>, typ: PasswordType)
      ensures fresh(value)
      ensures value[..] == Zeroed(input[..])
      ensures this.typ == typ
    {
      value := new uint8[input.Length](_ => 0);
      this.typ := typ;
    }

    /** `Bytes`: the internal buffer, not a copy; writes through the result
        change the password. */
    method Bytes() returns (r: array<uint8>)
      ensures r == value
    {
      r := value;
    }

    /** `Clear`: every byte becomes zero; the length is kept. */
    method Clear()
      modifies value
      ensures value[..] == Zeroed(old(value[..]))
    {
      Buffers.ZeroFill(value);
    }
  }

  class Nonce {
    var data: array<uint8>

    /** `NewNonce`: a fresh all-zero buffer of the input's length; the input
        is not copied. */
    constructor NewNonce(input: array<uint8>)
      ensures fresh(data)
      ensures data[..] == Zeroed(input[..])
    {
      data := new uint8[input.Length](_ => 0);
    }

    /** `Bytes`: the internal buffer itself. */
    method Bytes() returns (r: array<uint8>)
      ensures r == data
    {
      r := data;
    }
  }

  lemma PasswordTypesDistinct()
    ensures PasswordTypePIN != PasswordTypeCSAN
  {
  }
}
