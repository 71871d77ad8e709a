/**
 * The message names of utils/config.py and the message a receiver hands
 * back. The pickled parameter list is not interpreted: a received payload is kept as
 * its bytes, together with what is done to its first element.
 */
module MsgConfig {
  import opened Wrappers
  import opened PyText

  const SendObject: string := "send"
  const RequestObject: string := "reqt"

  /**
   * The attributes of `MsgSubTypes` the receivers look up. A name the class
   * does not define is None: looking it up raises `AttributeError`.
   */
  datatype SubtypeNames = SubtypeNames(
    test: string, peerAddress: string, block: string, transaction: string, blockchain: string,
    nodeAddress: Option<string>, nodeInit: Option<string>)

  /** `MsgSubTypes` as shipped: five names, and no `NODE_ADDRESS` or `NODE_INIT`. */
  const Shipped: SubtypeNames := SubtypeNames("test", "peer", "blok", "trsn", "bkcn", None, None)

  /** What a receiver does with the first element of the unpickled parameter list. */
  datatype Conversion =
    | AsSent              // returned as unpickled
    | BlockFromDict       // `Block.from_dict`
    | TransactionFromDict // `Transaction.from_dict`
    | BlockchainFromDict  // `Blockchain.from_dict`
    | Discarded           // an unknown subtype: the element becomes None

  /** The unpickled form of `payload`, its first element treated as `first` says. */
  datatype Params = Decoded(payload: seq<byte>, first: Conversion)

  datatype Message = Message(msgType: string, msgSubtype: string, params: Option<Params>)
}
