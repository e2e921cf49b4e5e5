# roeid-reader smart-card core, modelled in Dafny

This project models the parts of the roeid-reader Go code base that are actually implemented around its
PACE (Password Authenticated Connection Establishment) client:

- the ISO/IEC 7816-4 command/response layer (section 5.1): serialising a command APDU into header, Lc,
  data and Le in the short form, splitting a raw response into data and the status bytes SW1 SW2, and the
  16-bit status word with its success test;
- the status-word constants and the two error types (`TransportError`, `StatusError`) with their texts;
- the APDU logger's enabled gate and its classifiers: instruction names, status descriptions and the
  PIN-retry counter carried in the low nibble of `0x63Cx`;
- the PC/SC transport's reader selection ("Generic EMV" preferred, else the first reader) and the
  connected/disconnected guards of `Connect`, `Transmit`, `Status` and `Disconnect`;
- the Send Sequence Counter (64-bit, big-endian 8-byte form) and the counter discipline of the
  secure-messaging service, whose `Encrypt` advances the counter and then fails and whose `Decrypt` fails
  without touching it;
- the sensitive byte holders: `AESKey` copies on the way in and out and zeroizes in place, while
  `Password` and `Nonce` allocate a zero-filled buffer of the input's length without copying the input,
  and hand out that buffer itself;
- mutual-authentication tag comparison and the two point-at-infinity predicates.

Bytes are `uint8` (a subset of `int`), so status words are plain arithmetic: Go's `uint16(sw1)<<8 | sw2`
is `sw1 * 256 + sw2` (the bytes occupy disjoint bits), `status & 0xFFF0` is `status - status % 16` and
`status & 0x000F` is `status % 16`. The counter's `uint64` increment wraps modulo 2^64 explicitly. Go
`error` values are reduced to their text (`GoErrors.GoError`), and `fmt.Errorf("…: %w", e)` to
`GoErrors.Wrap`. Logger output is a sequence of structured lines. PC/SC calls are parameters: each
transport operation takes the outcomes of the library calls it would make and returns the list of calls
it makes, so "does not touch the card" is an empty list.

Files: `wrappers.dfy` (Option, Result), `goerrors.dfy`, `encoding.dfy` (integer types, `%02X` and `%d`
renderings, buffer copy and zeroization), `apdu.dfy`, `status.dfy`, `logger.dfy`, `transport.dfy`,
`securemessaging.dfy`, `messagingservice.dfy`, `ellipticcurve.dfy`, `keyagreement.dfy`, `password.dfy`,
`mapping.dfy`.

## Model

| member | source | states |
|---|---|---|
| Apdu.Bytes | internal/smartcard/domain/apdu.go:16-32 | The serialisation starts with CLA INS P1 P2; its length is 4, plus 1 + data length when there is data, plus 1 when Le > 0; the Lc byte is the data length modulo 256 and the data follows it; a positive Le is the last byte |
| Apdu.ParseBytes | internal/smartcard/domain/apdu.go:16-32 | A short-APDU decoder recovers the command from its serialisation exactly when the data has fewer than 256 bytes; from 256 bytes on the wrapped Lc makes the serialisation undecodable |
| Apdu.BytesParse | internal/smartcard/domain/apdu.go:16-32 | Every byte string the short-APDU decoder accepts is the serialisation of the command it decodes to |
| Apdu.LeZeroNotEmitted | internal/smartcard/domain/apdu.go:18-31 | With Le = 0 nothing follows the body; with neither data nor Le the output is the 4-byte header |
| Apdu.StatusWord | internal/smartcard/domain/apdu.go:43 | The status word has SW1 as high byte and SW2 as low byte |
| Apdu.StatusCode | internal/smartcard/domain/apdu.go:42-44 | A response's status word splits back into its SW1 (high) and SW2 (low) bytes |
| Apdu.IsSuccess | internal/smartcard/domain/apdu.go:47-49 | Success holds exactly when SW1 = 0x90 and SW2 = 0x00, so 0x63C3 is not success |
| Apdu.StatusCodeInjective | internal/smartcard/domain/apdu.go:42-44 | Two responses have the same status word iff they have the same SW1 and SW2 |
| Apdu.NewResponse | internal/smartcard/domain/apdu.go:57-66 | For input of at least 2 bytes, data followed by SW1 SW2 is the input; shorter input is kept whole as data with status 0x6F00, which is not success |
| Apdu.NewResponseRoundTrip | internal/smartcard/domain/apdu.go:61-65 | Splitting data ++ [SW1, SW2] gives back the same response |
| Apdu.ErrorText | internal/smartcard/domain/apdu.go:52-54 | The error text is the fixed prefix, SW1 as two upper-case hex digits, " SW2=", then SW2 as two hex digits; both pairs read back as SW1 and SW2 |
| Status.TransportErrorCodes | internal/smartcard/domain/status.go:40-50 | The nine transport error codes are non-zero and pairwise distinct |
| Status.NewTransportError | internal/smartcard/domain/status.go:73-79 | The code, message and cause are stored unchanged |
| Status.TransportErrorText | internal/smartcard/domain/status.go:60-65 | Without a cause the text is the message; with one it is the message, ": " and the cause's text |
| Status.Unwrap | internal/smartcard/domain/status.go:68-70 | Unwrap returns exactly the cause, absent when there is none |
| Status.TransportErrorTextStructure | internal/smartcard/domain/status.go:60-70 | The message is a prefix of the error text, and the unwrapped cause's text is what follows ": " |
| Status.StatusText | internal/smartcard/domain/status.go:98-128 | Each of the 13 codes in the table maps to its fixed text, and every other code to "Unknown error" |
| Status.StatusTextDistinguishesKnownCodes | internal/smartcard/domain/status.go:98-128 | No listed code reads as "Unknown error", and distinct listed codes have distinct texts |
| Status.UnlistedCodesAreUnknown | internal/smartcard/domain/status.go:98-128 | 0x6A82, 0x6984 and every PIN retry word 0x63C0..0x63CF give "Unknown error" |
| Status.StatusErrorText | internal/smartcard/domain/status.go:90-95 | A non-empty detail overrides the text; an empty detail gives the table text of the code |
| Status.NewStatusError | internal/smartcard/domain/status.go:132-138 | SW1 and SW2 are copied, the code is SW1 * 256 + SW2, there is no detail, so the error reads as the table text of the response's status word |
| GoErrors.Wrap | internal/smartcard/infrastructure/pcsctransport.go:29 | A wrapped error's text is the prefix, ": ", then the cause's text |
| Encoding.Hex2 | internal/smartcard/infrastructure/logger.go:145 | `%02X` gives exactly two upper-case hex digits |
| Encoding.Hex2RoundTrip | internal/smartcard/infrastructure/logger.go:145 | Reading the two hex digits back gives the byte |
| Encoding.Decimal | internal/smartcard/infrastructure/logger.go:174 | `%d` gives at least one decimal digit, no leading zero, and one digit exactly for values below 10 |
| Encoding.DecimalRoundTrip | internal/smartcard/infrastructure/logger.go:174 | Reading the decimal rendering back gives the number |
| Encoding.ZeroedIdempotent | internal/crypto/domain/ellipticcurve.go:53-57 | Zeroizing an already zeroized buffer changes nothing |
| Encoding.ZeroedDependsOnlyOnLength | internal/pace/domain/password.go:18-23 | Zeroized buffers are equal iff their sources have the same length: the contents are lost |
| Buffers.CopyOf | internal/crypto/domain/ellipticcurve.go:40-41 | The copy is a new buffer with the same contents |
| Buffers.ZeroFill | internal/crypto/domain/ellipticcurve.go:54-56 | Every byte becomes zero and the length is kept |
| ApduLogger.NewLogger | internal/smartcard/infrastructure/logger.go:18-20 | A new logger is enabled and has written nothing |
| ApduLogger.SetEnabled | internal/smartcard/infrastructure/logger.go:23-25 | The flag becomes exactly the given value; output is unchanged |
| ApduLogger.Emit | internal/smartcard/infrastructure/logger.go:33-35 | A disabled logger is left unchanged; an enabled one appends exactly one line |
| ApduLogger.LogConnect | internal/smartcard/infrastructure/logger.go:31-37 | A disabled logger is unchanged; an enabled one appends one line holding the reader name and the protocol as given |
| ApduLogger.LogDisconnect | internal/smartcard/infrastructure/logger.go:40-45 | A disabled logger is unchanged; an enabled one appends exactly the disconnection line |
| ApduLogger.LogReaderSelected | internal/smartcard/infrastructure/logger.go:48-54 | A disabled logger is unchanged; an enabled one appends one line holding the selected reader and the number of available readers |
| ApduLogger.LogATR | internal/smartcard/infrastructure/logger.go:57-62 | A disabled logger is unchanged; an enabled one appends one line holding the ATR bytes |
| ApduLogger.LogCommand | internal/smartcard/infrastructure/logger.go:65-80 | A disabled logger is unchanged; an enabled one appends exactly the command line of the bytes |
| ApduLogger.LogResponse | internal/smartcard/infrastructure/logger.go:82-98 | A disabled logger is unchanged; an enabled one appends exactly the response line of the bytes |
| ApduLogger.LogError | internal/smartcard/infrastructure/logger.go:100-106 | A disabled logger is unchanged; an enabled one appends one line holding the error's text |
| ApduLogger.LogInfo | internal/smartcard/infrastructure/logger.go:108-115 | A disabled logger is unchanged; an enabled one appends one line holding the message |
| ApduLogger.ApplyAllAppends | internal/smartcard/infrastructure/logger.go:31-115 | Over any sequence of log calls the flag is unchanged and earlier output is kept; an enabled logger appends exactly the line of each call, in call order; a disabled one is unchanged |
| ApduLogger.CommandLineFor | internal/smartcard/infrastructure/logger.go:70-79 | With at least 4 bytes the line reports CLA, INS, P1 and P2 from bytes 0 to 3 and names the instruction from byte 1; shorter input uses the generic line; the length and all the bytes are reported |
| ApduLogger.CommandLineForBytes | internal/smartcard/infrastructure/logger.go:70-75 | Logging a serialised command reports that command's own CLA, INS, P1 and P2 and names its instruction |
| ApduLogger.ResponseLineFor | internal/smartcard/infrastructure/logger.go:87-97 | With at least 2 bytes the status word comes from the last two bytes, len - 2 data bytes are reported with the word's description, and all the bytes are logged; shorter input uses the generic line |
| ApduLogger.ResponseLineAgreesWithNewResponse | internal/smartcard/infrastructure/logger.go:87-91 | The logged status word and data length are those `NewResponse` yields for the same bytes |
| ApduLogger.InstructionName | internal/smartcard/infrastructure/logger.go:118-146 | The 12 listed INS bytes get their names; any other byte gets "INS_" and its two upper-case hex digits |
| ApduLogger.InstructionNameInjective | internal/smartcard/infrastructure/logger.go:118-146 | Different INS bytes are always logged under different names |
| ApduLogger.StatusDescription | internal/smartcard/infrastructure/logger.go:150-177 | The 9 named words get their short texts (0x9000 "OK", 0x6982 "Auth failed", ...); an unnamed 0x63Cx word gets its low nibble in decimal and " retries left"; the description is empty iff the word is neither named nor of the form 0x63Cx |
| ApduLogger.NamedWordsAreNotPinRetryWords | internal/smartcard/infrastructure/logger.go:151-172 | No named status word has the form 0x63Cx, so the named cases never shadow the retry branch |
| ApduLogger.RetriesReadBack | internal/smartcard/infrastructure/logger.go:173-174 | The text "n retries left" reads back as n |
| ApduLogger.RetryDescriptionReadsBack | internal/smartcard/infrastructure/logger.go:171-175 | Every word with (code & 0xFFF0) = 0x63C0 describes a retry count that reads back as code & 0x0F |
| ApduLogger.PinRetryWordsReachRetryBranch | internal/smartcard/infrastructure/logger.go:151-175 | 0x63C0 + n gives "n retries left" for every n from 0 to 15 |
| PcscTransport.NewPcscTransport | internal/smartcard/infrastructure/pcsctransport.go:21-23 | A new transport has neither a context nor a card |
| PcscTransport.ContainsIff | internal/smartcard/infrastructure/pcsctransport.go:106 | The substring search succeeds iff the pattern occurs at some position |
| PcscTransport.SelectReader | internal/smartcard/infrastructure/pcsctransport.go:104-114 | The result is in the list: the first reader naming "Generic EMV" if one does, otherwise the first reader |
| PcscTransport.Connect | internal/smartcard/infrastructure/pcsctransport.go:26-57 | Each failure has its message and PC/SC call list; an empty reader list fails before any reader is selected; a reader is selected by the selection rule; the card handle is replaced only on success and kept on every failure; an established context stays stored even when a later step fails |
| PcscTransport.Transmit | internal/smartcard/infrastructure/pcsctransport.go:60-71 | Without a card it fails and makes no PC/SC call; with one it sends the serialised command once and splits the reply, or wraps the transmission error |
| PcscTransport.Status | internal/smartcard/infrastructure/pcsctransport.go:87-101 | Without a card it fails and makes no PC/SC call; with one it reports the ATR and "T=" followed by the protocol number in decimal |
| PcscTransport.Disconnect | internal/smartcard/infrastructure/pcsctransport.go:74-84 | It leaves the card if present, releases the context if present, and ends with both handles cleared |
| PcscTransport.DisconnectIdempotent | internal/smartcard/infrastructure/pcsctransport.go:74-84 | A second Disconnect makes no PC/SC call and changes nothing |
| PcscTransport.DisconnectedRefusesCardOperations | internal/smartcard/infrastructure/pcsctransport.go:74-90 | After Disconnect, Transmit and Status fail without any PC/SC call |
| PcscTransport.ListReadersOn | internal/smartcard/infrastructure/pcsctransport.go:117-122 | Without a context it fails and calls nothing; with one it passes the library's answer through |
| SecureMessaging.NewSendSequenceCounter | internal/messaging/domain/securemessaging.go:9-11 | A new counter has value 0 |
| SecureMessaging.Increment | internal/messaging/domain/securemessaging.go:14-16 | Below 2^64 - 1 the value grows by exactly one; at 2^64 - 1 it wraps to 0 |
| SecureMessaging.Bytes | internal/messaging/domain/securemessaging.go:19-25 | The encoding always has 8 bytes |
| SecureMessaging.Value | internal/messaging/domain/securemessaging.go:28-30 | The value is the number the counter's 8-byte encoding denotes read big-endian |
| SecureMessaging.BytesIsBigEndian | internal/messaging/domain/securemessaging.go:19-30 | The 8 bytes read as a big-endian number give the counter's stored value |
| SecureMessaging.BytesInjective | internal/messaging/domain/securemessaging.go:19-30 | Distinct counters have distinct encodings |
| SecureMessaging.NewCounterBytesZero | internal/messaging/domain/securemessaging.go:9-25 | A new counter encodes as eight zero bytes |
| SecureMessaging.IncrementTimesValue | internal/messaging/domain/securemessaging.go:9-25 | After k < 2^64 increments of a new counter the value is k and the encoding reads as k |
| SecureMessaging.NewSecureMessage | internal/messaging/domain/securemessaging.go:39-44 | Both byte strings are stored unchanged |
| MessagingService.NewSecureMessagingService | internal/messaging/application/service.go:20-26 | The service holds the given keys and a counter at 0 |
| MessagingService.Encrypt | internal/messaging/application/service.go:29-37 | The counter advances by exactly one, the keys are kept, and the call fails with no message |
| MessagingService.Decrypt | internal/messaging/application/service.go:41-47 | The call fails and the service, counter included, is unchanged |
| MessagingService.RunAdvancesPerEncrypt | internal/messaging/application/service.go:29-47 | Any interleaving of calls advances the counter once per Encrypt and keeps the keys |
| MessagingService.FreshServiceCountsEncrypts | internal/messaging/application/service.go:20-47 | On a new service, n Encrypt calls mixed with any Decrypt calls leave the counter at n |
| EllipticCurve.NewPoint | internal/crypto/domain/ellipticcurve.go:12-14 | The point is non-nil and holds the given coordinates |
| EllipticCurve.IsPointAtInfinity | internal/crypto/domain/ellipticcurve.go:16-19 | A point is at infinity iff it is nil or equals the point with both coordinates nil |
| EllipticCurve.NewPointInfinityIff | internal/crypto/domain/ellipticcurve.go:12-19 | The nil point is at infinity; a constructed point is at infinity iff both coordinates are nil |
| EllipticCurve.AESKey.NewAESKey | internal/crypto/domain/ellipticcurve.go:39-43 | The key owns a fresh buffer equal to the input, so later writes to the input do not reach it |
| EllipticCurve.AESKey.Bytes | internal/crypto/domain/ellipticcurve.go:46-50 | The result is a fresh buffer equal to the key, which is unchanged |
| EllipticCurve.AESKey.Clear | internal/crypto/domain/ellipticcurve.go:53-57 | Every key byte becomes zero and the length is kept |
| KeyAgreement.IsAuthenticated | internal/pace/domain/keyagreement.go:25-39 | The result is true iff both tags are present, of equal length and byte-identical |
| KeyAgreement.TagsAgreeSymmetric | internal/pace/domain/keyagreement.go:25-39 | Swapping the terminal and card tags does not change the verdict |
| KeyAgreement.TagsAgreeCases | internal/pace/domain/keyagreement.go:26-38 | Two present empty tags authenticate; different lengths, or one differing byte at any position, do not |
| PaceSecrets.Password.NewPassword | internal/pace/domain/password.go:18-23 | The password owns a fresh all-zero buffer of the input's length (the input is not copied) and records the given type |
| PaceSecrets.Password.Bytes | internal/pace/domain/password.go:26-28 | The result is the internal buffer itself, not a copy |
| PaceSecrets.Password.Clear | internal/pace/domain/password.go:31-35 | Every byte becomes zero and the length is kept |
| PaceSecrets.Nonce.NewNonce | internal/pace/domain/password.go:43-47 | The nonce owns a fresh all-zero buffer of the input's length; the input is not copied |
| PaceSecrets.Nonce.Bytes | internal/pace/domain/password.go:50-52 | The result is the internal buffer itself |
| PaceSecrets.PasswordTypesDistinct | internal/pace/domain/password.go:12-15 | The PIN and CAN password types are distinct |
| Mapping.IsPointAtInfinity | internal/pace/domain/mapping.go:21-24 | A point is the identity iff it equals the point with both coordinates nil |
| Mapping.PartialPointsAreFinite | internal/pace/domain/mapping.go:22-24 | A point with both coordinates nil is at infinity; one with either coordinate set is not |
| Mapping.InfinityTestsAgree | internal/pace/domain/mapping.go:22-24 | On non-nil points the pace and crypto identity tests agree |
| Mapping.MappingTypesDistinct | internal/pace/domain/mapping.go:29-32 | Generic and integrated mapping have distinct identifiers |

## Left out

- PACE cryptography: `EllipticCurve` and `KDF` are interfaces without an implementation, the CMAC provider is empty, `PACEService.Execute` is a stub, and the cipher and MAC steps of `Encrypt`/`Decrypt` are placeholders; no curve arithmetic, key derivation, nonce mapping or protect/unprotect round trip is modelled.
- Constant-time behaviour of the tag comparison cannot be expressed; the comparison is modelled as the early-exit loop it is.
- PC/SC I/O (context, card handles, reader listing, `log.Printf`) is abstracted into outcome parameters and a returned list of library calls.
- Timestamps (`time.Now`) and the exact `fmt` layout of log lines are not modelled; lines are structured values. `LogInfo` takes the already formatted message.
- Go's `%w` error chains are reduced to the wrapped text; `errors.Is`/`errors.As` are not modelled.
- Mapping.IsPointAtInfinity: takes a non-nil point; the Go method dereferences its receiver without a nil check, so a nil receiver panics, which is not modelled.
- PcscTransport.SelectReader: requires a non-empty list; the Go function indexes `readers[0]` and would panic on an empty one, a path `Connect` rules out before calling it.
- The legacy reader code under src/ and the command-line program are not part of this model; the legacy reader selection follows the same rule as `selectReader`.
- The smart-card application service (fixed APDU headers, PIN truncation to 8 bytes, printing) and the declaration-only card-data, card and reader files are not part of this model.
