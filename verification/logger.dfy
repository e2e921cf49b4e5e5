/** The APDU traffic logger. Output is a sequence of structured lines instead
    of formatted text; timestamps and hex layout are not modelled. */
module ApduLogger {
  import opened Wrappers
  import opened Encoding
  import opened GoErrors
  import Status
  import Apdu

  /** One logged line, carrying the values the source formats into it. */
  datatype LogLine =
    | Connected(reader: string, protocol: string)
    | Disconnected
    | ReaderSelected(reader: string, available: nat)
    | Atr(atr: seq<uint8>)
    | CommandLine(insName: string, cla: uint8, ins: uint8, p1: uint8, p2: uint8, length: nat, bytes: seq<uint8>)
    | RawCommandLine(length: nat, bytes: seq<uint8>)
    | ResponseLine(dataLength: nat, status: uint16, description: string, bytes: seq<uint8>)
    | RawResponseLine(length: nat, bytes: seq<uint8>)
    | ErrorLine(text: string)
    | InfoLine(text: string)

  datatype Logger = Logger(enabled: bool, out: seq<LogLine>)

  /** A new logger is enabled and has written nothing. */
  function NewLogger(): (l: Logger)
    ensures l.enabled && l.out == []
  {
    Logger(true, [])
  }

  function SetEnabled(l: Logger, enabled: bool): (r: Logger)
    ensures r.enabled == enabled && r.out == l.out
  {
    l.(enabled := enabled)
  }

  /** The gate every `Log*` method shares: a disabled logger writes nothing. */
  function Emit(l: Logger, line: LogLine): (r: Logger)
    ensures r.enabled == l.enabled
    ensures !l.enabled ==> r == l
    ensures l.enabled ==> r.out == l.out + [line]
  {
    if l.enabled then l.(out := l.out + [line]) else l
  }

  /** The reader name and protocol are logged as given. */
  function LogConnect(l: Logger, reader: string, protocol: string): (r: Logger)
    ensures r.enabled == l.enabled && (!l.enabled ==> r == l)
    ensures l.enabled ==> |r.out| == |l.out| + 1 && r.out[..|l.out|] == l.out
                          && r.out[|l.out|].Connected? && r.out[|l.out|].reader == reader
                          && r.out[|l.out|].protocol == protocol
  {
    Emit(l, Connected(reader, protocol))
  }

  function LogDisconnect(l: Logger): (r: Logger)
    ensures r.enabled == l.enabled && (!l.enabled ==> r == l)
    ensures l.enabled ==> r.out == l.out + [Disconnected]
  {
    Emit(l, Disconnected)
  }

  /** Only the number of available readers is logged, not their names. */
  function LogReaderSelected(l: Logger, reader: string, available: seq<string>): (r: Logger)
    ensures r.enabled == l.enabled && (!l.enabled ==> r == l)
    ensures l.enabled ==> |r.out| == |l.out| + 1 && r.out[..|l.out|] == l.out
                          && r.out[|l.out|].ReaderSelected? && r.out[|l.out|].reader == reader
                          && r.out[|l.out|].available == |available|
  {
    Emit(l, ReaderSelected(reader, |available|))
  }

  function LogATR(l: Logger, atr: seq<uint8>): (r: Logger)
    ensures r.enabled == l.enabled && (!l.enabled ==> r == l)
    ensures l.enabled ==> |r.out| == |l.out| + 1 && r.out[..|l.out|] == l.out
                          && r.out[|l.out|].Atr? && r.out[|l.out|].atr == atr
  {
    Emit(l, Atr(atr))
  }

  /** The error is logged by its text. */
  function LogError(l: Logger, err: GoError): (r: Logger)
    ensures r.enabled == l.enabled && (!l.enabled ==> r == l)
    ensures l.enabled ==> |r.out| == |l.out| + 1 && r.out[..|l.out|] == l.out
                          && r.out[|l.out|].ErrorLine? && r.out[|l.out|].text == err.text
  {
    Emit(l, ErrorLine(err.text))
  }

  /** The message is taken already formatted; `fmt` verbs are not modelled. */
  function LogInfo(l: Logger, msg: string): (r: Logger)
    ensures r.enabled == l.enabled && (!l.enabled ==> r == l)
    ensures l.enabled ==> |r.out| == |l.out| + 1 && r.out[..|l.out|] == l.out
                          && r.out[|l.out|].InfoLine? && r.out[|l.out|].text == msg
  {
    Emit(l, InfoLine(msg))
  }

  /** The line `LogCommand` writes: with a full header, the instruction is
      named from the second byte; shorter input gets the generic form. */
  function CommandLineFor(data: seq<uint8>): (line: LogLine)
    ensures |data| >= 4 ==> line.CommandLine? && line.cla == data[0] && line.ins == data[1]
                            && line.p1 == data[2] && line.p2 == data[3]
                            && line.insName == InstructionName(data[1])
    ensures |data| < 4 ==> line.RawCommandLine?
    ensures line.length == |data| && line.bytes == data
  {
    if |data| >= 4 then CommandLine(InstructionName(data[1]), data[0], data[1], data[2], data[3], |data|, data)
    else RawCommandLine(|data|, data)
  }

  function LogCommand(l: Logger, data: seq<uint8>): (r: Logger)
    ensures r.enabled == l.enabled && (!l.enabled ==> r == l)
    ensures l.enabled ==> r.out == l.out + [CommandLineFor(data)]
  {
    Emit(l, CommandLineFor(data))
  }

  /** Logging a serialised command reports the command's own header and
      names its instruction. */
  lemma CommandLineForBytes(c: Apdu.Command)
    ensures CommandLineFor(Apdu.Bytes(c)).CommandLine?
    ensures CommandLineFor(Apdu.Bytes(c)).cla == c.cla
    ensures CommandLineFor(Apdu.Bytes(c)).ins == c.ins
    ensures CommandLineFor(Apdu.Bytes(c)).p1 == c.p1
    ensures CommandLineFor(Apdu.Bytes(c)).p2 == c.p2
    ensures CommandLineFor(Apdu.Bytes(c)).insName == InstructionName(c.ins)
  {
    var b := Apdu.Bytes(c);
    assert b[..4] == [c.cla, c.ins, c.p1, c.p2];
    assert b[0] == b[..4][0] && b[1] == b[..4][1] && b[2] == b[..4][2] && b[3] == b[..4][3];
  }

  /** The line `LogResponse` writes: with at least two bytes the status word
      is read from the last two and the rest counts as data; shorter input gets
      the generic form. */
  function ResponseLineFor(data: seq<uint8>): (line: LogLine)
    ensures |data| >= 2 ==> line.ResponseLine? && line.dataLength == |data| - 2
                            && line.status == Apdu.StatusWord(data[|data| - 2], data[|data| - 1])
                            && line.description == StatusDescription(line.status)
                            && line.bytes == data
    ensures |data| < 2 ==> line == RawResponseLine(|data|, data)
  {
    if |data| >= 2 then
      var status := Apdu.StatusWord(data[|data| - 2], data[|data| - 1]);
      ResponseLine(|data| - 2, status, StatusDescription(status), data)
    else RawResponseLine(|data|, data)
  }

  function LogResponse(l: Logger, data: seq<uint8>): (r: Logger)
    ensures r.enabled == l.enabled && (!l.enabled ==> r == l)
    ensures l.enabled ==> r.out == l.out + [ResponseLineFor(data)]
  {
    Emit(l, ResponseLineFor(data))
  }

  /** The response logger reads the same status word and data field as
      `NewResponse` does. */
  lemma ResponseLineAgreesWithNewResponse(data: seq<uint8>)
    requires |data| >= 2
    ensures ResponseLineFor(data).status == Apdu.StatusCode(Apdu.NewResponse(data))
    ensures ResponseLineFor(data).dataLength == |Apdu.NewResponse(data).data|
  {
  }

  /** Names of the instruction bytes the logger recognises. */
  const InstructionNames: map<int, string> := map[
    0xA4 := "SELECT",
    0x20 := "VERIFY",
    0xB0 := "READ BINARY",
    0xB2 := "READ RECORD",
    0xCA := "GET DATA",
    0xD6 := "UPDATE BINARY",
    0x82 := "EXTERNAL AUTHENTICATE",
    0x84 := "GET CHALLENGE",
    0x86 := "GENERAL AUTHENTICATE",
    0x88 := "INTERNAL AUTHENTICATE",
    0x22 := "MANAGE SECURITY ENVIRONMENT",
    0x2A := "PERFORM SECURITY OPERATION"
  ]

  const UnknownInstructionPrefix: string := "INS_"

  /** `instructionName`, a switch on the INS byte with a hex fallback:
      recognised bytes get their table name, every other byte gets "INS_"
      followed by its two upper-case hex digits. */
  function InstructionName(ins: uint8): (name: string)
    ensures ins in InstructionNames ==> name == InstructionNames[ins]
    ensures ins !in InstructionNames ==> name == UnknownInstructionPrefix + Hex2(ins)
  {
    match ins
    case 0xA4 => "SELECT"
    case 0x20 => "VERIFY"
    case 0xB0 => "READ BINARY"
    case 0xB2 => "READ RECORD"
    case 0xCA => "GET DATA"
    case 0xD6 => "UPDATE BINARY"
    case 0x82 => "EXTERNAL AUTHENTICATE"
    case 0x84 => "GET CHALLENGE"
    case 0x86 => "GENERAL AUTHENTICATE"
    case 0x88 => "INTERNAL AUTHENTICATE"
    case 0x22 => "MANAGE SECURITY ENVIRONMENT"
    case 0x2A => "PERFORM SECURITY OPERATION"
    case _ => UnknownInstructionPrefix + Hex2(ins)
  }

  /** No table name starts with the fallback prefix. */
  lemma TableNamesLackUnknownPrefix(ins: uint8)
    requires ins in InstructionNames
    ensures |InstructionNames[ins]| < 4 || InstructionNames[ins][..4] != UnknownInstructionPrefix
  {
    var name := InstructionNames[ins];
    assert |name| >= 4 && name[3] != '_' by {
      if ins == 0x88 {
        assert name == "INTERNAL AUTHENTICATE";
      }
    }
    assert name[..4][3] == name[3];
  }

  /** Different instruction bytes are always logged under different names. */
  lemma InstructionNameInjective(a: uint8, b: uint8)
    ensures InstructionName(a) == InstructionName(b) ==> a == b
  {
    if InstructionName(a) == InstructionName(b) {
      if a !in InstructionNames && b !in InstructionNames {
        var na := InstructionName(a);
        assert Hex2(a) == na[4..] == Hex2(b);
        Hex2Injective(a, b);
      } else if a in InstructionNames && b !in InstructionNames {
        assert InstructionName(b)[..4] == UnknownInstructionPrefix;
        TableNamesLackUnknownPrefix(a);
      } else if a !in InstructionNames && b in InstructionNames {
        assert InstructionName(a)[..4] == UnknownInstructionPrefix;
        TableNamesLackUnknownPrefix(b);
      }
    }
  }

  /** Short descriptions of the named status words. */
  const StatusDescriptions: map<int, string> := map[
    Status.StatusSuccess := "OK",
    Status.StatusMoreData := "More data",
    Status.StatusWarningEOF := "EOF",
    Status.StatusSecurityAuthFailed := "Auth failed",
    Status.StatusIncorrectPIN := "PIN blocked",
    Status.StatusFileNotFound := "Not found",
    Status.StatusLengthError := "Wrong length",
    Status.StatusInstructionErr := "INS not supported",
    Status.StatusCLAErr := "CLA not supported"
  ]

  const RetriesLeftSuffix: string := " retries left"

  /** True when the status word has the form 0x63Cx: Go's
      `status & 0xFFF0 == 0x63C0`, i.e. the word with its low nibble cleared. */
  predicate IsPinRetryWord(status: uint16) {
    status - status % 16 == Status.StatusPINRetryMask
  }

  /** `statusDescription`: the named words first, then the PIN retry form
      "n retries left" with n the low nibble, else the empty text. */
  function StatusDescription(status: uint16): (d: string)
    ensures status in StatusDescriptions ==> d == StatusDescriptions[status]
    ensures status !in StatusDescriptions && IsPinRetryWord(status)
            ==> d == Decimal(status % 16) + RetriesLeftSuffix
    ensures d == "" <==> status !in StatusDescriptions && !IsPinRetryWord(status)
  {
    if status == Status.StatusSuccess then "OK"
    else if status == Status.StatusMoreData then "More data"
    else if status == Status.StatusWarningEOF then "EOF"
    else if status == Status.StatusSecurityAuthFailed then "Auth failed"
    else if status == Status.StatusIncorrectPIN then "PIN blocked"
    else if status == Status.StatusFileNotFound then "Not found"
    else if status == Status.StatusLengthError then "Wrong length"
    else if status == Status.StatusInstructionErr then "INS not supported"
    else if status == Status.StatusCLAErr then "CLA not supported"
    else if IsPinRetryWord(status) then Decimal(status % 16) + RetriesLeftSuffix
    else ""
  }

  /** Reads the retry count back out of a description of the form
      "n retries left". */
  function RetriesFromDescription(desc: string): Option<nat> {
    if |desc| > |RetriesLeftSuffix| && desc[|desc| - |RetriesLeftSuffix|..] == RetriesLeftSuffix
       && forall i :: 0 <= i < |desc| - |RetriesLeftSuffix| ==> IsDecimalDigit(desc[i])
    then Some(DecimalValue(desc[..|desc| - |RetriesLeftSuffix|]))
    else None
  }

  /** No named word has the form 0x63Cx, so the table never hides a PIN
      retry word. */
  lemma NamedWordsAreNotPinRetryWords(status: uint16)
    requires status in StatusDescriptions
    ensures !IsPinRetryWord(status)
  {
  }

  /** "n retries left" reads back as n. */
  lemma RetriesReadBack(n: nat)
    ensures RetriesFromDescription(Decimal(n) + RetriesLeftSuffix) == Some(n)
  {
    var d := Decimal(n);
    var desc := d + RetriesLeftSuffix;
    assert desc[..|desc| - |RetriesLeftSuffix|] == d;
    assert desc[|desc| - |RetriesLeftSuffix|..] == RetriesLeftSuffix;
    DecimalRoundTrip(n);
  }

  /** Every 0x63Cx word describes a retry count that reads back as its low
      nibble. */
  lemma RetryDescriptionReadsBack(status: uint16)
    requires IsPinRetryWord(status)
    ensures RetriesFromDescription(StatusDescription(status)) == Some(status % 16)
  {
    assert status !in StatusDescriptions by {
      if status in StatusDescriptions {
        NamedWordsAreNotPinRetryWords(status);
      }
    }
    RetriesReadBack(status % 16);
  }

  /** None of the named words is a PIN retry word, so every 0x63Cx reaches
      the retry branch: 0x63C0 + n always describes n remaining tries. */
  lemma PinRetryWordsReachRetryBranch(n: nat)
    requires n < 16
    ensures StatusDescription(Status.StatusPINRetryMask + n) == Decimal(n) + RetriesLeftSuffix
  {
    var w: uint16 := Status.StatusPINRetryMask + n;
    assert w == 0x63C * 16 + n;
    assert w % 16 == n;
    assert IsPinRetryWord(w);
  }

  /** A log request, for reasoning about sequences of calls. */
  datatype LogEvent =
    | ConnectEvent(reader: string, protocol: string)
    | DisconnectEvent
    | ReaderSelectedEvent(reader: string, available: seq<string>)
    | AtrEvent(atr: seq<uint8>)
    | CommandEvent(data: seq<uint8>)
    | ResponseEvent(data: seq<uint8>)
    | ErrorEvent(err: GoError)
    | InfoEvent(msg: string)

  function Apply(l: Logger, e: LogEvent): Logger {
    match e
    case ConnectEvent(reader, protocol) => LogConnect(l, reader, protocol)
    case DisconnectEvent => LogDisconnect(l)
    case ReaderSelectedEvent(reader, available) => LogReaderSelected(l, reader, available)
    case AtrEvent(atr) => LogATR(l, atr)
    case CommandEvent(data) => LogCommand(l, data)
    case ResponseEvent(data) => LogResponse(l, data)
    case ErrorEvent(err) => LogError(l, err)
    case InfoEvent(msg) => LogInfo(l, msg)
  }

  /** The line an enabled logger writes for a request. */
  function LineOf(e: LogEvent): LogLine {
    match e
    case ConnectEvent(reader, protocol) => Connected(reader, protocol)
    case DisconnectEvent => Disconnected
    case ReaderSelectedEvent(reader, available) => ReaderSelected(reader, |available|)
    case AtrEvent(atr) => Atr(atr)
    case CommandEvent(data) => CommandLineFor(data)
    case ResponseEvent(data) => ResponseLineFor(data)
    case ErrorEvent(err) => ErrorLine(err.text)
    case InfoEvent(msg) => InfoLine(msg)
  }

  function ApplyAll(l: Logger, es: seq<LogEvent>): Logger
    decreases |es|
  {
    if |es| == 0 then l else ApplyAll(Apply(l, es[0]), es[1..])
  }

  /** Logging never changes the enabled flag and only appends: an enabled
      logger writes exactly the line of each call, in call order, and a
      disabled one writes nothing. */
  lemma {:induction false} ApplyAllAppends(l: Logger, es: seq<LogEvent>)
    ensures ApplyAll(l, es).enabled == l.enabled
    ensures !l.enabled ==> ApplyAll(l, es) == l
    ensures l.enabled ==> ApplyAll(l, es).out == l.out + seq(|es|, i requires 0 <= i < |es| => LineOf(es[i]))
    ensures |ApplyAll(l, es).out| >= |l.out| && ApplyAll(l, es).out[..|l.out|] == l.out
    decreases |es|
  {
    if |es| > 0 {
      var l' := Apply(l, es[0]);
      assert l' == Emit(l, LineOf(es[0]));
      ApplyAllAppends(l', es[1..]);
      if l.enabled {
        var rest := seq(|es| - 1, i requires 0 <= i < |es| - 1 => LineOf(es[1..][i]));
        var all := seq(|es|, i requires 0 <= i < |es| => LineOf(es[i]));
        assert all == [LineOf(es[0])] + rest;
        assert ApplyAll(l, es).out == l.out + all;
      }
    }
  }
}
