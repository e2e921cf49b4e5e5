/** The secure-messaging service. Its cipher and MAC steps are placeholders
    in the source; what it does fix is the counter discipline: `Encrypt`
    advances the Send Sequence Counter and then fails, `Decrypt` fails
    without touching it. */
module MessagingService {
  import opened Wrappers
  import opened GoErrors
  import opened SecureMessaging
  import EllipticCurve
  import Apdu

  /** The session keys (shared references, possibly nil) and the counter. */
  datatype Service = Service(kEnc: EllipticCurve.AESKey?, kMac: EllipticCurve.AESKey?, ssc: SendSequenceCounter)

  /** A new service holds the given keys and a fresh counter. */
  function NewSecureMessagingService(kEnc: EllipticCurve.AESKey?, kMac: EllipticCurve.AESKey?): (s: Service)
    ensures s.kEnc == kEnc && s.kMac == kMac && Value(s.ssc) == 0
  {
    Service(kEnc, kMac, NewSendSequenceCounter())
  }

  const EncryptUnimplemented: string := "encryption not yet implemented"
  const DecryptUnimplemented: string := "decryption not yet implemented"

  /** `Encrypt`: the counter moves on by one before anything else, then the
      call fails without producing a message. */
  function Encrypt(s: Service, command: Apdu.Command): (r: (Service, Result<SecureMessage, GoError>))
    ensures r.0.kEnc == s.kEnc && r.0.kMac == s.kMac
    ensures r.0.ssc == Increment(s.ssc)
    ensures r.1 == Err(GoError(EncryptUnimplemented))
  {
    (s.(ssc := Increment(s.ssc)), Err(GoError(EncryptUnimplemented)))
  }

  /** `Decrypt`: fails and leaves the service, counter included, unchanged. */
  function Decrypt(s: Service, message: SecureMessage): (r: (Service, Result<Apdu.Command, GoError>))
    ensures r.0 == s
    ensures r.1 == Err(GoError(DecryptUnimplemented))
  {
    (s, Err(GoError(DecryptUnimplemented)))
  }

  /** A call on the service. */
  datatype Call = EncryptCall(command: Apdu.Command) | DecryptCall(message: SecureMessage)

  function Step(s: Service, c: Call): Service {
    match c
    case EncryptCall(command) => Encrypt(s, command).0
    case DecryptCall(message) => Decrypt(s, message).0
  }

  /** The service after a sequence of calls, the last call applied last. */
  function Run(s: Service, calls: seq<Call>): Service
    decreases |calls|
  {
    if |calls| == 0 then s else Step(Run(s, calls[..|calls| - 1]), calls[|calls| - 1])
  }

  function CountEncrypts(calls: seq<Call>): nat
    decreases |calls|
  {
    if |calls| == 0 then 0
    else CountEncrypts(calls[..|calls| - 1]) + (if calls[|calls| - 1].EncryptCall? then 1 else 0)
  }

  /** Any interleaving advances the counter once per `Encrypt` and never
      changes the keys. */
  lemma {:induction false} RunAdvancesPerEncrypt(s: Service, calls: seq<Call>)
    ensures Run(s, calls).ssc == IncrementTimes(s.ssc, CountEncrypts(calls))
    ensures Run(s, calls).kEnc == s.kEnc && Run(s, calls).kMac == s.kMac
    decreases |calls|
  {
    if |calls| > 0 {
      RunAdvancesPerEncrypt(s, calls[..|calls| - 1]);
    }
  }

  /** On a fresh service, n `Encrypt` and any number of `Decrypt` calls in any
      order leave the counter at n (below the 64-bit wrap). */
  lemma FreshServiceCountsEncrypts(kEnc: EllipticCurve.AESKey?, kMac: EllipticCurve.AESKey?, calls: seq<Call>)
    requires CountEncrypts(calls) < UINT64_MODULUS
    ensures Value(Run(NewSecureMessagingService(kEnc, kMac), calls).ssc) == CountEncrypts(calls)
  {
    RunAdvancesPerEncrypt(NewSecureMessagingService(kEnc, kMac), calls);
    IncrementTimesValue(CountEncrypts(calls));
  }
}
