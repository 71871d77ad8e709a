/**
 * The message protocol of core_communication/protocol.py. The framing is the
 * same as in communication/protocol.py. Here exceptions reach the caller:
 * `receive_message` logs some of them and raises them all again.
 */
module CoreProtocol {
  import opened Wrappers
  import opened PyText
  import opened Wire
  import opened MsgConfig

  /**
   * `construct_message`: a request is always "0:" with type and subtype, and
   * its parameters are ignored. Any other message needs at least one
   * parameter; without one, `msg_params[0]` raises `IndexError`.
   */
  function ConstructMessage(msgType: string, msgSubtype: string, params: Option<seq<byte>>): (r: Result<seq<byte>, Fault>)
    ensures msgType == RequestObject ==> r == Ok(Utf8("0") + [Colon] + Utf8(msgType) + Utf8(msgSubtype))
    ensures msgType != RequestObject && params.None? ==> r == Err(IndexError)
    ensures msgType != RequestObject && params.Some? ==>
              r == Ok(Utf8(NatToDecimal(|params.value|)) + [Colon] + Utf8(msgType) + Utf8(msgSubtype) + params.value)
  {
    assert NatToDecimal(0) == "0";
    ghost var header := Utf8("0") + [Colon] + Utf8(msgType) + Utf8(msgSubtype);
    assert header + [] == header;
    if msgType == RequestObject then Ok(FrameBytes(msgType, msgSubtype, None))
    else if params.None? then Err(IndexError)
    else Ok(FrameBytes(msgType, msgSubtype, params))
  }

  /**
   * The dispatch of `decrypt_msg_params`, by subtype alone. The match looks
   * up `NODE_ADDRESS` after the three object subtypes, so a missing name
   * raises for every other subtype.
   */
  function Dispatch(names: SubtypeNames, msgSubtype: string): (r: Result<Conversion, Fault>)
    ensures r.Err? ==> r.error == AttributeError && names.nodeAddress.None?
    ensures msgSubtype == names.block ==> r == Ok(BlockFromDict)
  {
    if msgSubtype == names.block then Ok(BlockFromDict)
    else if msgSubtype == names.transaction then Ok(TransactionFromDict)
    else if msgSubtype == names.blockchain then Ok(BlockchainFromDict)
    else if names.nodeAddress.None? then Err(AttributeError)
    else if msgSubtype == names.nodeAddress.value then Ok(AsSent)
    else if msgSubtype == names.test then Ok(AsSent)
    else Ok(Discarded)
  }

  /** `receive_socket_message`; a `Raised` outcome is the exception the caller sees. */
  function Receive(names: SubtypeNames, data: seq<byte>): Outcome<Message>
  {
    var f := ReceiveFrame(data);
    if !f.Done? then Fail(f)
    else if f.value.payload.None? then Done(Message(f.value.msgType, f.value.msgSubtype, None), f.rest)
    else match Dispatch(names, f.value.msgSubtype)
      case Ok(c) => Done(Message(f.value.msgType, f.value.msgSubtype, Some(Decoded(f.value.payload.value, c))), f.rest)
      case Err(e) => Raised(e)
  }

  method ReceiveSocketMessage(sock: Socket, names: SubtypeNames) returns (r: Outcome<Message>)
    modifies sock
    ensures r == Receive(names, old(sock.incoming))
    ensures r.Done? ==> sock.incoming == r.rest
  {
    var f := ReceiveSocketFrame(sock);
    if !f.Done? {
      return Fail(f);
    }
    var frame := f.value;
    if frame.payload.None? {
      return Done(Message(frame.msgType, frame.msgSubtype, None), sock.incoming);
    }
    var c := Dispatch(names, frame.msgSubtype);
    if c.Err? {
      return Raised(c.error);
    }
    r := Done(Message(frame.msgType, frame.msgSubtype, Some(Decoded(frame.payload.value, c.value))), sock.incoming);
  }

  predicate Header(msgType: string, msgSubtype: string)
  {
    IsAscii(msgType) && |msgType| == 4 && IsAscii(msgSubtype) && |msgSubtype| == 4
  }

  /**
   * Whatever `construct_message` builds reads back. A request comes back
   * without parameters. A message with a payload comes back with it, or
   * with the dispatch's exception.
   */
  lemma RoundTrip(names: SubtypeNames, msgType: string, msgSubtype: string, params: Option<seq<byte>>, tail: seq<byte>)
    requires Header(msgType, msgSubtype)
    requires params.Some? ==> |params.value| > 0
    requires ConstructMessage(msgType, msgSubtype, params).Ok?
    ensures var r := Receive(names, ConstructMessage(msgType, msgSubtype, params).value + tail);
            if msgType == RequestObject then r == Done(Message(msgType, msgSubtype, None), tail)
            else if Dispatch(names, msgSubtype).Ok? then
              r == Done(Message(msgType, msgSubtype, Some(Decoded(params.value, Dispatch(names, msgSubtype).value))), tail)
            else r == Raised(AttributeError)
  {
    if msgType == RequestObject {
      FrameRoundTrip(msgType, msgSubtype, None, tail);
    } else {
      FrameRoundTrip(msgType, msgSubtype, params, tail);
    }
  }

  /**
   * With the shipped `MsgSubTypes`, receiving a "send" message raises
   * `AttributeError` unless its subtype is block, transaction or blockchain.
   */
  lemma SendOtherSubtypeRaises(msgSubtype: string, payload: seq<byte>, tail: seq<byte>)
    requires Header(SendObject, msgSubtype) && |payload| > 0
    requires msgSubtype != Shipped.block && msgSubtype != Shipped.transaction && msgSubtype != Shipped.blockchain
    ensures Receive(Shipped, ConstructMessage(SendObject, msgSubtype, Some(payload)).value + tail) == Raised(AttributeError)
  {
    RoundTrip(Shipped, SendObject, msgSubtype, Some(payload), tail);
  }

  /**
   * With `NODE_ADDRESS` defined, every constructed message is received. A
   * "test" object comes back as sent.
   */
  lemma DefinedNamesDeliver(names: SubtypeNames, msgType: string, msgSubtype: string, payload: seq<byte>, tail: seq<byte>)
    requires names.nodeAddress.Some?
    requires Header(msgType, msgSubtype) && |payload| > 0
    ensures var r := Receive(names, ConstructMessage(msgType, msgSubtype, Some(payload)).value + tail);
            r.Done? && r.rest == tail && r.value.msgType == msgType && r.value.msgSubtype == msgSubtype
    ensures msgType != RequestObject && msgSubtype == names.test &&
            names.test !in [names.block, names.transaction, names.blockchain] ==>
              Receive(names, ConstructMessage(msgType, msgSubtype, Some(payload)).value + tail) ==
              Done(Message(msgType, msgSubtype, Some(Decoded(payload, AsSent))), tail)
  {
    var c := Dispatch(names, msgSubtype);
    assert c.Ok?;
    RoundTrip(names, msgType, msgSubtype, Some(payload), tail);
    if msgType != RequestObject && msgSubtype == names.test && names.test !in [names.block, names.transaction, names.blockchain] {
      assert c == Ok(AsSent);
    }
  }
}
