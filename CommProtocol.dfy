/**
 * The message protocol of communication/protocol.py. It has text framing
 * and pickled parameters. `receive_socket_message` catches every exception,
 * logs it and returns None (a `Raised` outcome here). `receive_message`
 * passes that None on.
 */
module CommProtocol {
  import opened Wrappers
  import opened PyText
  import opened Wire
  import opened MsgConfig

  /**
   * `construct_message`: the pickled parameters (`params`, absent when the
   * call has none) go into a frame headed by their byte count, or by "0".
   */
  function ConstructMessage(msgType: string, msgSubtype: string, params: Option<seq<byte>>): (m: seq<byte>)
    ensures params.None? ==> m == Utf8("0") + [Colon] + Utf8(msgType) + Utf8(msgSubtype)
    ensures params.Some? ==>
              m == Utf8(NatToDecimal(|params.value|)) + [Colon] + Utf8(msgType) + Utf8(msgSubtype) + params.value
  {
    assert NatToDecimal(0) == "0";
    FrameBytes(msgType, msgSubtype, params)
  }

  /**
   * The dispatch of `decrypt_msg_params`. A request keeps the whole list as
   * unpickled. Otherwise the first element is converted by subtype, and
   * the match looks up each case's name in turn. A missing name raises
   * `AttributeError` for every subtype not matched before it.
   */
  function Dispatch(names: SubtypeNames, msgType: string, msgSubtype: string): (r: Result<Conversion, Fault>)
    ensures msgType == RequestObject ==> r == Ok(AsSent)
    ensures r.Err? ==> r.error == AttributeError
    ensures msgType != RequestObject && msgSubtype == names.block ==> r == Ok(BlockFromDict)
  {
    if msgType == RequestObject then Ok(AsSent)
    else if msgSubtype == names.block then Ok(BlockFromDict)
    else if msgSubtype == names.transaction then Ok(TransactionFromDict)
    else if msgSubtype == names.blockchain then Ok(BlockchainFromDict)
    else if names.nodeAddress.None? then Err(AttributeError)
    else if msgSubtype == names.nodeAddress.value then Ok(AsSent)
    else if names.nodeInit.None? then Err(AttributeError)
    else if msgSubtype == names.nodeInit.value then Ok(AsSent)
    else if msgSubtype == names.test then Ok(AsSent)
    else Ok(Discarded)
  }

  /** `decrypt_msg_params` on received payload bytes. */
  function DecryptMsgParams(names: SubtypeNames, msgType: string, msgSubtype: string, payload: seq<byte>): (r: Result<Params, Fault>)
    ensures r.Ok? ==> r.value.payload == payload && Dispatch(names, msgType, msgSubtype) == Ok(r.value.first)
    ensures r.Err? <==> Dispatch(names, msgType, msgSubtype).Err?
  {
    match Dispatch(names, msgType, msgSubtype)
    case Ok(c) => Ok(Decoded(payload, c))
    case Err(e) => Err(e)
  }

  /** `receive_socket_message` on the bytes still to arrive. */
  function Receive(names: SubtypeNames, data: seq<byte>): Outcome<Message>
  {
    var f := ReceiveFrame(data);
    if !f.Done? then Fail(f)
    else if f.value.payload.None? then Done(Message(f.value.msgType, f.value.msgSubtype, None), f.rest)
    else match DecryptMsgParams(names, f.value.msgType, f.value.msgSubtype, f.value.payload.value)
      case Ok(p) => Done(Message(f.value.msgType, f.value.msgSubtype, Some(p)), f.rest)
      case Err(e) => Raised(e)
  }

  method ReceiveSocketMessage(sock: Socket, names: SubtypeNames) returns (r: Outcome<Message>)
    modifies sock
    ensures r == Receive(names, old(sock.incoming))
    ensures r.Done? ==> sock.incoming == r.rest
  {
    var f := ReceiveSocketFrame(sock);
    if !f.Done? {
      return Fail(f);
    }
    var frame := f.value;
    if frame.payload.None? {
      return Done(Message(frame.msgType, frame.msgSubtype, None), sock.incoming);
    }
    var p := DecryptMsgParams(names, frame.msgType, frame.msgSubtype, frame.payload.value);
    if p.Err? {
      return Raised(p.error);
    }
    r := Done(Message(frame.msgType, frame.msgSubtype, Some(p.value)), sock.incoming);
  }

  /** Well-formed header fields: four ASCII characters each, as `MsgTypes` and `MsgSubTypes` are. */
  predicate Header(msgType: string, msgSubtype: string)
  {
    IsAscii(msgType) && |msgType| == 4 && IsAscii(msgSubtype) && |msgSubtype| == 4
  }

  /**
   * A constructed message reads back with its type, subtype and payload, and
   * stops where the next message starts. The payload is pickled, so it is
   * never empty.
   */
  lemma RoundTrip(names: SubtypeNames, msgType: string, msgSubtype: string, params: Option<seq<byte>>, tail: seq<byte>)
    requires Header(msgType, msgSubtype)
    requires params.Some? ==> |params.value| > 0
    ensures params.None? ==> Receive(names, ConstructMessage(msgType, msgSubtype, params) + tail) == Done(Message(msgType, msgSubtype, None), tail)
    ensures params.Some? && Dispatch(names, msgType, msgSubtype).Ok? ==>
              Receive(names, ConstructMessage(msgType, msgSubtype, params) + tail) ==
              Done(Message(msgType, msgSubtype, Some(Decoded(params.value, Dispatch(names, msgType, msgSubtype).value))), tail)
    ensures params.Some? && Dispatch(names, msgType, msgSubtype).Err? ==>
              Receive(names, ConstructMessage(msgType, msgSubtype, params) + tail) == Raised(AttributeError)
  {
    FrameRoundTrip(msgType, msgSubtype, params, tail);
  }

  /**
   * With the shipped `MsgSubTypes`, a "send" message of a subtype other than
   * block, transaction or blockchain is lost. That includes "test" and
   * "peer": the receiver logs an error and returns None.
   */
  lemma SendOtherSubtypeLost(msgSubtype: string, payload: seq<byte>, tail: seq<byte>)
    requires Header(SendObject, msgSubtype) && |payload| > 0
    requires msgSubtype != Shipped.block && msgSubtype != Shipped.transaction && msgSubtype != Shipped.blockchain
    ensures Receive(Shipped, ConstructMessage(SendObject, msgSubtype, Some(payload)) + tail) == Raised(AttributeError)
  {
    RoundTrip(Shipped, SendObject, msgSubtype, Some(payload), tail);
  }

  /**
   * With `NODE_ADDRESS` and `NODE_INIT` defined, no subtype raises. Every
   * "send" message with a payload is received, and a "test" object comes
   * back as it was sent.
   */
  lemma DefinedNamesDeliver(names: SubtypeNames, msgSubtype: string, payload: seq<byte>, tail: seq<byte>)
    requires names.nodeAddress.Some? && names.nodeInit.Some?
    requires Header(SendObject, msgSubtype) && |payload| > 0
    ensures var r := Receive(names, ConstructMessage(SendObject, msgSubtype, Some(payload)) + tail);
            r.Done? && r.rest == tail && r.value.params.Some? && r.value.params.value.payload == payload
    ensures msgSubtype == names.test && names.test !in [names.block, names.transaction, names.blockchain] ==>
              Receive(names, ConstructMessage(SendObject, msgSubtype, Some(payload)) + tail) ==
              Done(Message(SendObject, msgSubtype, Some(Decoded(payload, AsSent))), tail)
  {
    var d := Dispatch(names, SendObject, msgSubtype);
    assert d.Ok?;
    assert Receive(names, ConstructMessage(SendObject, msgSubtype, Some(payload)) + tail) ==
           Done(Message(SendObject, msgSubtype, Some(Decoded(payload, d.value))), tail) by {
      RoundTrip(names, SendObject, msgSubtype, Some(payload), tail);
    }
    if msgSubtype == names.test && names.test !in [names.block, names.transaction, names.blockchain] {
      TestAsSent(names, msgSubtype);
    }
  }

  /** With every name defined, a "send" of the test subtype keeps its payload as unpickled. */
  lemma TestAsSent(names: SubtypeNames, msgSubtype: string)
    requires names.nodeAddress.Some? && names.nodeInit.Some?
    requires msgSubtype == names.test && names.test !in [names.block, names.transaction, names.blockchain]
    ensures Dispatch(names, SendObject, msgSubtype) == Ok(AsSent)
  {
    var others := [names.block, names.transaction, names.blockchain];
    assert others[0] == names.block && others[1] == names.transaction && others[2] == names.blockchain;
  }
}
