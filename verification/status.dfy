/** Status-word constants of ISO/IEC 7816-4, the transport error type and the
    status error type with its human-readable texts. */
module Status {
  import opened Wrappers
  import opened Encoding
  import opened GoErrors
  import Apdu

  const StatusSuccess: uint16 := 0x9000
  const StatusMoreData: uint16 := 0x6100
  const StatusWarning: uint16 := 0x6200
  const StatusWarningCorrupted: uint16 := 0x6281
  const StatusWarningEOF: uint16 := 0x6282
  const StatusExecutionError: uint16 := 0x6400
  const StatusPersistentError: uint16 := 0x6500
  const StatusSecurityError: uint16 := 0x6600
  const StatusLengthError: uint16 := 0x6700
  const StatusFunctionNotFound: uint16 := 0x6881
  const StatusLogicalChannelErr: uint16 := 0x6882
  const StatusKeyReferenceErr: uint16 := 0x6A86
  const StatusFileNotFound: uint16 := 0x6A82
  const StatusInstructionErr: uint16 := 0x6D00
  const StatusCLAErr: uint16 := 0x6E00
  const StatusSecurityAuthFailed: uint16 := 0x6982
  const StatusIncorrectPIN: uint16 := 0x6983
  const StatusIncorrectKey: uint16 := 0x6984
  /** `0x63Cx`: the low nibble carries the remaining PIN tries. */
  const StatusPINRetryMask: uint16 := 0x63C0

  /** PC/SC transport error codes, numbered from 1 as Go's `iota + 1` does. */
  type TransportErrorCode = int

  const ErrNoContext: TransportErrorCode := 1
  const ErrNoReaders: TransportErrorCode := 2
  const ErrNoCard: TransportErrorCode := 3
  const ErrCardRemoved: TransportErrorCode := 4
  const ErrConnectionLost: TransportErrorCode := 5
  const ErrTransmissionFailed: TransportErrorCode := 6
  const ErrProtocolMismatch: TransportErrorCode := 7
  const ErrReaderBusy: TransportErrorCode := 8
  const ErrTimeout: TransportErrorCode := 9

  /** All transport error codes in declaration order. */
  function TransportErrorCodes(): (codes: seq<TransportErrorCode>)
    ensures |codes| == 9
    ensures forall i :: 0 <= i < |codes| ==> codes[i] != 0
    ensures forall i, j :: 0 <= i < j < |codes| ==> codes[i] != codes[j]
  {
    [ErrNoContext, ErrNoReaders, ErrNoCard, ErrCardRemoved, ErrConnectionLost,
     ErrTransmissionFailed, ErrProtocolMismatch, ErrReaderBusy, ErrTimeout]
  }

  /** A transport-level failure, with an optional underlying cause. */
  datatype TransportError = TransportError(code: TransportErrorCode, message: string, cause: Option<GoError>)

  function NewTransportError(code: TransportErrorCode, message: string, cause: Option<GoError>): (e: TransportError)
    ensures e.code == code && e.message == message && e.cause == cause
  {
    TransportError(code, message, cause)
  }

  /** `TransportError.Error()`: the message alone without a cause; otherwise
      the message, ": " and the cause's text. */
  function TransportErrorText(e: TransportError): (s: string)
    ensures e.cause.None? ==> s == e.message
    ensures e.cause.Some? ==> s == Wrap(e.message, e.cause.value).text
  {
    if e.cause.Some? then e.message + ": " + e.cause.value.text else e.message
  }

  /** `TransportError.Unwrap()`: the cause, which may be absent. */
  function Unwrap(e: TransportError): (cause: Option<GoError>)
    ensures cause == e.cause
  {
    e.cause
  }

  /** The message is always a prefix of the error text, and with a cause the
      cause's text can be recovered from the rest of it. */
  lemma TransportErrorTextStructure(e: TransportError)
    ensures |e.message| <= |TransportErrorText(e)|
    ensures TransportErrorText(e)[..|e.message|] == e.message
    ensures Unwrap(e).Some? ==> TransportErrorText(e)[|e.message| + 2..] == Unwrap(e).value.text
  {
  }

  /** A non-success status word together with its two bytes and an optional
      detail text (empty means none). */
  datatype StatusError = StatusError(code: uint16, sw1: uint8, sw2: uint8, detail: string)

  /** The fixed table behind `StatusError.String()`: thirteen codes. File not
      found (0x6A82), reference key in use (0x6984) and the PIN retry words
      0x63Cx are deliberately absent. */
  const StatusTexts: map<int, string> := map[
    StatusSuccess := "Success",
    StatusMoreData := "More data available",
    StatusWarning := "Warning",
    StatusWarningCorrupted := "File corrupted",
    StatusWarningEOF := "End of file reached",
    StatusExecutionError := "Execution error",
    StatusPersistentError := "Persistent memory error",
    StatusSecurityError := "Security error",
    StatusLengthError := "Wrong length",
    StatusSecurityAuthFailed := "Security status not satisfied (incorrect PIN/CAN?)",
    StatusIncorrectPIN := "Authentication method blocked",
    StatusInstructionErr := "Instruction code not supported",
    StatusCLAErr := "Class not supported"
  ]

  const UnknownErrorText: string := "Unknown error"

  /** `StatusError.String()`, a switch on the code: listed codes get their
      text, every other code gets "Unknown error". */
  function StatusText(code: uint16): (text: string)
    ensures code in StatusTexts ==> text == StatusTexts[code]
    ensures code !in StatusTexts ==> text == UnknownErrorText
  {
    if code == StatusSuccess then "Success"
    else if code == StatusMoreData then "More data available"
    else if code == StatusWarning then "Warning"
    else if code == StatusWarningCorrupted then "File corrupted"
    else if code == StatusWarningEOF then "End of file reached"
    else if code == StatusExecutionError then "Execution error"
    else if code == StatusPersistentError then "Persistent memory error"
    else if code == StatusSecurityError then "Security error"
    else if code == StatusLengthError then "Wrong length"
    else if code == StatusSecurityAuthFailed then "Security status not satisfied (incorrect PIN/CAN?)"
    else if code == StatusIncorrectPIN then "Authentication method blocked"
    else if code == StatusInstructionErr then "Instruction code not supported"
    else if code == StatusCLAErr then "Class not supported"
    else UnknownErrorText
  }

  /** Listed codes never read as "Unknown error", and no two share a text. */
  lemma StatusTextDistinguishesKnownCodes(a: uint16, b: uint16)
    requires a in StatusTexts && b in StatusTexts
    ensures StatusText(a) != UnknownErrorText
    ensures StatusText(a) == StatusText(b) ==> a == b
  {
  }

  /** Codes that the source names but does not describe fall back to
      "Unknown error", including every PIN retry word. */
  lemma UnlistedCodesAreUnknown(n: nat)
    requires n < 16
    ensures StatusText(StatusFileNotFound) == UnknownErrorText
    ensures StatusText(StatusIncorrectKey) == UnknownErrorText
    ensures StatusText(StatusPINRetryMask + n) == UnknownErrorText
  {
  }

  /** `StatusError.Error()`: the detail text overrides the table text. */
  function StatusErrorText(e: StatusError): (s: string)
    ensures e.detail != "" ==> s == e.detail
    ensures e.detail == "" ==> s == StatusText(e.code)
  {
    if e.detail != "" then e.detail else StatusText(e.code)
  }

  /** A status error built from a response copies both status bytes, combines
      them into the code, and has no detail. */
  function NewStatusError(resp: Apdu.Response): (e: StatusError)
    ensures e.sw1 == resp.sw1 && e.sw2 == resp.sw2
    ensures e.code == resp.sw1 * 256 + resp.sw2
    ensures e.detail == ""
    ensures StatusErrorText(e) == StatusText(Apdu.StatusCode(resp))
  {
    StatusError(Apdu.StatusCode(resp), resp.sw1, resp.sw2, "")
  }
}
