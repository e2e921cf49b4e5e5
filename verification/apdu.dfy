/** Command and response APDUs of ISO/IEC 7816-4 (section 5.1): a command is
    serialised as header, optional Lc and data, optional Le; a response is the
    data field followed by the two status bytes SW1 SW2. */
module Apdu {
  import opened Wrappers
  import opened Encoding

  /** A command APDU. `le == 0` means "no expected length" and is never sent. */
  datatype Command = Command(cla: uint8, ins: uint8, p1: uint8, p2: uint8, data: seq<uint8>, le: uint8)

  /** Number of bytes the body (Lc and data) occupies in the serialised form. */
  function BodyLength(c: Command): nat {
    if |c.data| == 0 then 0 else 1 + |c.data|
  }

  /** Serialisation in the short form. Lc is a single byte holding the data
      length modulo 256: data of 256 bytes or more is not rejected, the length
      byte silently wraps. */
  function Bytes(c: Command): (r: seq<uint8>)
    ensures |r| == 4 + BodyLength(c) + (if c.le > 0 then 1 else 0)
    ensures r[..4] == [c.cla, c.ins, c.p1, c.p2]
    ensures |c.data| > 0 ==> r[4] == |c.data| % 256 && r[5..5 + |c.data|] == c.data
    ensures c.le > 0 ==> r[|r| - 1] == c.le
  {
    var header := [c.cla, c.ins, c.p1, c.p2];
    var trailer := if c.le > 0 then [c.le] else [];
    if |c.data| == 0 then header + trailer
    else header + [|c.data| % 256] + c.data + trailer
  }

  /** A reference decoder for the four short-APDU cases: header only, header
      and Le, header and Lc/data, header and Lc/data/Le. An Lc or Le of zero is
      not a valid short encoding. */
  function Parse(r: seq<uint8>): Option<Command> {
    if |r| < 4 then None
    else if |r| == 4 then Some(Command(r[0], r[1], r[2], r[3], [], 0))
    else if |r| == 5 then
      if r[4] > 0 then Some(Command(r[0], r[1], r[2], r[3], [], r[4])) else None
    else if r[4] == |r| - 5 then Some(Command(r[0], r[1], r[2], r[3], r[5..], 0))
    else if r[4] == |r| - 6 && r[4] > 0 && r[|r| - 1] > 0 then
      Some(Command(r[0], r[1], r[2], r[3], r[5..|r| - 1], r[|r| - 1]))
    else None
  }

  /** Serialisation can be decoded back exactly when the data fits the one
      byte Lc field; from 256 data bytes on the wrapped Lc makes the command
      undecodable. */
  lemma ParseBytes(c: Command)
    ensures |c.data| < 256 ==> Parse(Bytes(c)) == Some(c)
    ensures |c.data| >= 256 ==> Parse(Bytes(c)) == None
  {
    var r := Bytes(c);
    if |c.data| == 0 {
      assert r == [c.cla, c.ins, c.p1, c.p2] + (if c.le > 0 then [c.le] else []);
    } else if c.le > 0 {
      assert r[5..|r| - 1] == c.data;
    } else {
      assert r[5..] == c.data;
    }
  }

  /** Every string the decoder accepts is the serialisation of what it decodes to. */
  lemma BytesParse(r: seq<uint8>)
    ensures Parse(r).Some? ==> Bytes(Parse(r).value) == r
  {
    if Parse(r).Some? {
      var c := Parse(r).value;
      if |r| == 4 {
        assert Bytes(c) == r[..4];
      } else if |r| == 5 {
        assert Bytes(c) == r[..4] + [r[4]];
      } else if r[4] == |r| - 5 {
        assert Bytes(c) == r[..4] + [r[4]] + r[5..];
      } else {
        assert Bytes(c) == r[..4] + [r[4]] + r[5..|r| - 1] + [r[|r| - 1]];
      }
    }
  }

  /** A zero Le is never emitted: the serialisation is the same as without Le. */
  lemma LeZeroNotEmitted(c: Command)
    requires c.le == 0
    ensures |Bytes(c)| == 4 + BodyLength(c)
    ensures |c.data| == 0 ==> Bytes(c) == [c.cla, c.ins, c.p1, c.p2]
  {
  }

  /** A response APDU: the data field and the two status bytes. */
  datatype Response = Response(data: seq<uint8>, sw1: uint8, sw2: uint8)

  /** Go's `uint16(sw1) << 8 | uint16(sw2)`: the two bytes occupy disjoint
      bits, so the shift-or is a multiply-add. */
  function StatusWord(sw1: uint8, sw2: uint8): (code: uint16)
    ensures code / 256 == sw1 && code % 256 == sw2
  {
    sw1 * 256 + sw2
  }

  /** The 16-bit status word: SW1 is the high byte, SW2 the low byte. */
  function StatusCode(r: Response): (code: uint16)
    ensures code / 256 == r.sw1 && code % 256 == r.sw2
  {
    StatusWord(r.sw1, r.sw2)
  }

  /** Success is exactly the status word 0x9000. */
  function IsSuccess(r: Response): (ok: bool)
    ensures ok <==> r.sw1 == 0x90 && r.sw2 == 0x00
  {
    StatusCode(r) == 0x9000
  }

  /** Distinct status byte pairs give distinct status words. */
  lemma StatusCodeInjective(a: Response, b: Response)
    ensures StatusCode(a) == StatusCode(b) <==> a.sw1 == b.sw1 && a.sw2 == b.sw2
  {
  }

  /** Splits a raw response into data and status bytes. Input shorter than two
      bytes is kept whole as data and gets the status 0x6F00 ("no precise
      diagnosis"), which is not success. */
  function NewResponse(raw: seq<uint8>): (r: Response)
    ensures |raw| >= 2 ==> r.data + [r.sw1, r.sw2] == raw
    ensures |raw| < 2 ==> r.data == raw && StatusCode(r) == 0x6F00 && !IsSuccess(r)
  {
    if |raw| < 2 then Response(raw, 0x6F, 0x00)
    else Response(raw[..|raw| - 2], raw[|raw| - 2], raw[|raw| - 1])
  }

  /** Appending the status bytes to the data field undoes `NewResponse`. */
  lemma NewResponseRoundTrip(r: Response)
    ensures NewResponse(r.data + [r.sw1, r.sw2]) == r
  {
    var raw := r.data + [r.sw1, r.sw2];
    assert raw[..|raw| - 2] == r.data;
  }

  const ERROR_PREFIX: string := "APDU error: SW1="
  const ERROR_MIDDLE: string := " SW2="

  /** `Response.Error()`: both status bytes in two-digit upper-case hex. */
  function ErrorText(r: Response): (s: string)
    ensures |s| == |ERROR_PREFIX| + 2 + |ERROR_MIDDLE| + 2
    ensures s[..|ERROR_PREFIX|] == ERROR_PREFIX
    ensures ParseHex2(s[|ERROR_PREFIX|..|ERROR_PREFIX| + 2]) == Some(r.sw1)
    ensures ParseHex2(s[|s| - 2..]) == Some(r.sw2)
    ensures s[|ERROR_PREFIX| + 2..|s| - 2] == ERROR_MIDDLE
  {
    Hex2RoundTrip(r.sw1);
    Hex2RoundTrip(r.sw2);
    var s := ERROR_PREFIX + Hex2(r.sw1) + ERROR_MIDDLE + Hex2(r.sw2);
    assert s[|ERROR_PREFIX|..|ERROR_PREFIX| + 2] == Hex2(r.sw1);
    assert s[|s| - 2..] == Hex2(r.sw2);
    assert s[|ERROR_PREFIX| + 2..|s| - 2] == ERROR_MIDDLE;
    s
  }
}
