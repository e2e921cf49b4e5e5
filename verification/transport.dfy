/** The PC/SC transport: reader selection and the connection guards around
    the card handle. PC/SC calls are not executed here: each operation takes
    their outcomes as parameters and returns the calls it would make, in
    order, so that "does not touch the card" is an empty call list. */
module PcscTransport {
  import opened Wrappers
  import opened Encoding
  import opened GoErrors
  import Apdu

  /** Opaque PC/SC handles. */
  datatype ContextHandle = ContextHandle(id: nat)
  datatype CardHandle = CardHandle(id: nat)

  /** A call into the PC/SC library. */
  datatype ScardCall =
    | EstablishContext
    | ListReaders(ctx: ContextHandle)
    | ReleaseContext(ctx: ContextHandle)
    | ConnectCard(ctx: ContextHandle, reader: string)
    | DisconnectCard(card: CardHandle)
    | TransmitCard(card: CardHandle, command: seq<uint8>)
    | StatusCard(card: CardHandle)

  /** The transport holds a context and a card handle, either of which may be nil. */
  datatype Transport = Transport(context: Option<ContextHandle>, card: Option<CardHandle>)

  function NewPcscTransport(): (t: Transport)
    ensures t.context.None? && t.card.None?
  {
    Transport(None, None)
  }

  predicate Connected(t: Transport) {
    t.card.Some?
  }

  /** The reader name fragment that is preferred during selection. */
  const PreferredReader: string := "Generic EMV"

  /** `sub` occurs in `s` starting at position `i`. */
  predicate OccursAt(s: string, sub: string, i: int) {
    0 <= i <= |s| - |sub| && s[i..i + |sub|] == sub
  }

  /** `strings.Contains`: whether `sub` occurs in `s` at some position. */
  function Contains(s: string, sub: string): bool
    decreases |s|
  {
    |sub| <= |s| && (s[..|sub|] == sub || Contains(s[1..], sub))
  }

  /** The recursive search agrees with the positional definition of an occurrence. */
  lemma {:induction false} ContainsIff(s: string, sub: string)
    ensures Contains(s, sub) <==> exists i :: OccursAt(s, sub, i)
    decreases |s|
  {
    if |sub| <= |s| {
      if s[..|sub|] == sub {
        assert OccursAt(s, sub, 0);
      } else {
        ContainsIff(s[1..], sub);
        if Contains(s[1..], sub) {
          var i :| OccursAt(s[1..], sub, i);
          SliceOfTail(s, i + 1, i + 1 + |sub|);
          assert OccursAt(s, sub, i + 1);
        } else {
          forall i | 0 <= i <= |s| - |sub|
            ensures !OccursAt(s, sub, i)
          {
            if i > 0 {
              SliceOfTail(s, i, i + |sub|);
              assert !OccursAt(s[1..], sub, i - 1);
            }
          }
        }
      }
    }
  }

  lemma SliceOfTail(s: string, a: int, b: int)
    requires 1 <= a <= b <= |s|
    ensures s[1..][a - 1..b - 1] == s[a..b]
  {
  }

  /** The selection rule: the first reader naming "Generic EMV" if there is
      one, otherwise the first reader. */
  ghost predicate SelectionRule(readers: seq<string>, selected: string) {
    if exists i :: 0 <= i < |readers| && Contains(readers[i], PreferredReader) then
      exists k :: 0 <= k < |readers| && selected == readers[k] && Contains(readers[k], PreferredReader)
                  && forall j :: 0 <= j < k ==> !Contains(readers[j], PreferredReader)
    else
      |readers| > 0 && selected == readers[0]
  }

  /** `selectReader`: the first reader whose name contains "Generic EMV",
      otherwise the first reader. The source indexes `readers[0]`, so it must
      not be called with an empty list; `Connect` checks this first. */
  method SelectReader(readers: seq<string>) returns (selected: string)
    requires |readers| > 0
    ensures selected in readers
    ensures SelectionRule(readers, selected)
  {
    var i := 0;
    while i < |readers|
      invariant 0 <= i <= |readers|
      invariant forall j :: 0 <= j < i ==> !Contains(readers[j], PreferredReader)
    {
      if Contains(readers[i], PreferredReader) {
        return readers[i];
      }
      i := i + 1;
    }
    return readers[0];
  }

  /** What `Connect` does: the transport afterwards, the error if any, the
      reader it tried to connect to (if it got that far) and the PC/SC calls made. */
  datatype ConnectOutcome = ConnectOutcome(transport: Transport, err: Option<GoError>,
                                           selected: Option<string>, calls: seq<ScardCall>)

  const NoReadersMessage: string := "no smart card readers found"

  /** `Connect`, with the outcomes of `EstablishContext`, `ListReaders` and
      the card connection supplied by the caller. A context that was
      established is stored even on the failure paths after it (they release
      it but leave the field set); the card handle is only replaced on success. */
  method Connect(t: Transport,
                 establish: Result<ContextHandle, GoError>,
                 listed: Result<seq<string>, GoError>,
                 connectTo: string -> Result<CardHandle, GoError>)
    returns (o: ConnectOutcome)
    ensures o.selected.Some? <==> establish.Ok? && listed.Ok? && |listed.value| > 0
    ensures o.selected.Some? ==> SelectionRule(listed.value, o.selected.value)
    ensures o.err.None? <==> o.selected.Some? && connectTo(o.selected.value).Ok?
    ensures o.err.Some? ==> o.transport.card == t.card
    ensures establish.Err? ==>
              o == ConnectOutcome(t, Some(Wrap("failed to establish PC/SC context", establish.error)), None, [EstablishContext])
    ensures establish.Ok? ==> o.transport.context == Some(establish.value)
                              && |o.calls| >= 3 && o.calls[..2] == [EstablishContext, ListReaders(establish.value)]
    ensures establish.Ok? && listed.Err? ==>
              o.err == Some(Wrap("failed to list readers", listed.error))
              && o.calls == [EstablishContext, ListReaders(establish.value), ReleaseContext(establish.value)]
    ensures establish.Ok? && listed.Ok? && |listed.value| == 0 ==>
              o.err == Some(GoError(NoReadersMessage))
              && o.calls == [EstablishContext, ListReaders(establish.value), ReleaseContext(establish.value)]
    ensures o.selected.Some? && connectTo(o.selected.value).Err? ==>
              o.err == Some(Wrap("failed to connect to card", connectTo(o.selected.value).error))
              && o.calls == [EstablishContext, ListReaders(establish.value),
                             ConnectCard(establish.value, o.selected.value), ReleaseContext(establish.value)]
    ensures o.err.None? ==>
              o.transport == Transport(Some(establish.value), Some(connectTo(o.selected.value).value))
              && o.calls == [EstablishContext, ListReaders(establish.value), ConnectCard(establish.value, o.selected.value)]
  {
    if establish.Err? {
      return ConnectOutcome(t, Some(Wrap("failed to establish PC/SC context", establish.error)), None, [EstablishContext]);
    }
    var ctx := establish.value;
    var t1 := t.(context := Some(ctx));
    var calls := [EstablishContext, ListReaders(ctx)];
    if listed.Err? {
      return ConnectOutcome(t1, Some(Wrap("failed to list readers", listed.error)), None, calls + [ReleaseContext(ctx)]);
    }
    var readers := listed.value;
    if |readers| == 0 {
      return ConnectOutcome(t1, Some(GoError(NoReadersMessage)), None, calls + [ReleaseContext(ctx)]);
    }
    var selected := SelectReader(readers);
    calls := calls + [ConnectCard(ctx, selected)];
    var card := connectTo(selected);
    if card.Err? {
      return ConnectOutcome(t1, Some(Wrap("failed to connect to card", card.error)), Some(selected), calls + [ReleaseContext(ctx)]);
    }
    return ConnectOutcome(t1.(card := Some(card.value)), None, Some(selected), calls);
  }

  const NotConnectedMessage: string := "not connected to card"

  /** `Transmit`: refuses without a card and then makes no PC/SC call;
      otherwise sends the serialised command once and splits the reply. */
  function Transmit(t: Transport, command: Apdu.Command, reply: Result<seq<uint8>, GoError>)
    : (r: (Result<Apdu.Response, GoError>, seq<ScardCall>))
    ensures !Connected(t) ==> r == (Err(GoError(NotConnectedMessage)), [])
    ensures Connected(t) ==> r.1 == [TransmitCard(t.card.value, Apdu.Bytes(command))]
    ensures Connected(t) && reply.Err? ==> r.0 == Err(Wrap("transmission failed", reply.error))
    ensures Connected(t) && reply.Ok? ==> r.0 == Ok(Apdu.NewResponse(reply.value))
  {
    if !Connected(t) then (Err(GoError(NotConnectedMessage)), [])
    else
      var calls := [TransmitCard(t.card.value, Apdu.Bytes(command))];
      match reply
      case Err(e) => (Err(Wrap("transmission failed", e)), calls)
      case Ok(raw) => (Ok(Apdu.NewResponse(raw)), calls)
  }

  /** The card status as reported: answer to reset, protocol as "T=n", and a
      reader name the transport leaves empty. */
  datatype CardStatus = CardStatus(atr: seq<uint8>, activeProtocol: string, reader: string)

  /** What the PC/SC status query returns. */
  datatype ScardStatus = ScardStatus(atr: seq<uint8>, activeProtocol: nat)

  /** `Status`: refuses without a card and then makes no PC/SC call. */
  function Status(t: Transport, query: Result<ScardStatus, GoError>)
    : (r: (Result<CardStatus, GoError>, seq<ScardCall>))
    ensures !Connected(t) ==> r == (Err(GoError(NotConnectedMessage)), [])
    ensures Connected(t) ==> r.1 == [StatusCard(t.card.value)]
    ensures Connected(t) && query.Err? ==> r.0 == Err(Wrap("failed to get card status", query.error))
    ensures Connected(t) && query.Ok? ==>
              r.0.Ok? && r.0.value.atr == query.value.atr && r.0.value.reader == ""
              && |r.0.value.activeProtocol| > 2 && r.0.value.activeProtocol[..2] == "T="
              && r.0.value.activeProtocol[2..] == Decimal(query.value.activeProtocol)
  {
    if !Connected(t) then (Err(GoError(NotConnectedMessage)), [])
    else
      var calls := [StatusCard(t.card.value)];
      match query
      case Err(e) => (Err(Wrap("failed to get card status", e)), calls)
      case Ok(s) =>
        var protocol := Decimal(s.activeProtocol);
        assert ("T=" + protocol)[2..] == protocol;
        (Ok(CardStatus(s.atr, "T=" + protocol, "")), calls)
  }

  /** `Disconnect`: leaves the card (if any), releases the context (if any),
      clears both handles and never fails. */
  function Disconnect(t: Transport): (r: (Transport, seq<ScardCall>))
    ensures r.0 == NewPcscTransport()
    ensures r.1 == (if t.card.Some? then [DisconnectCard(t.card.value)] else [])
                   + (if t.context.Some? then [ReleaseContext(t.context.value)] else [])
  {
    var cardCalls := if t.card.Some? then [DisconnectCard(t.card.value)] else [];
    var contextCalls := if t.context.Some? then [ReleaseContext(t.context.value)] else [];
    (Transport(None, None), cardCalls + contextCalls)
  }

  /** A second `Disconnect` makes no call and changes nothing. */
  lemma DisconnectIdempotent(t: Transport)
    ensures Disconnect(Disconnect(t).0) == (Disconnect(t).0, [])
  {
  }

  /** After `Disconnect` the guards refuse both card operations. */
  lemma DisconnectedRefusesCardOperations(t: Transport, command: Apdu.Command,
                                          reply: Result<seq<uint8>, GoError>, query: Result<ScardStatus, GoError>)
    ensures Transmit(Disconnect(t).0, command, reply).1 == []
    ensures Transmit(Disconnect(t).0, command, reply).0.Err?
    ensures Status(Disconnect(t).0, query).1 == []
    ensures Status(Disconnect(t).0, query).0.Err?
  {
  }

  /** `ListReaders` on the transport: needs an established context. */
  function ListReadersOn(t: Transport, listed: Result<seq<string>, GoError>)
    : (r: (Result<seq<string>, GoError>, seq<ScardCall>))
    ensures t.context.None? ==> r == (Err(GoError("not connected to PC/SC")), [])
    ensures t.context.Some? ==> r == (listed, [ListReaders(t.context.value)])
  {
    if t.context.None? then (Err(GoError("not connected to PC/SC")), [])
    else (listed, [ListReaders(t.context.value)])
  }
}
