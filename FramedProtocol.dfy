/**
 * The length-prefixed protocol of Protocol/protocol.py. A frame is a
 * big-endian 4-byte payload length, a 4-byte NUL-padded UTF-8 message type,
 * then the pickled parameters. "Encryption" is the identity. The pickled
 * parameters are the payload bytes.
 */
module FramedProtocol {
  import opened Wrappers
  import opened PyText
  import opened Wire

  /**
   * `LENGTH_FIELD_SIZE` and `MSG_TYPE_LENGTH`, both 4 in the
   * `ProtocolSettings` class that the file imports from dini_Settings.py
   * (dini_Settings.py:15-18).
   */
  const LengthFieldSize: nat := 4
  const MsgTypeLength: nat := 4

  /** `2 ** (LENGTH_FIELD_SIZE * 8)`, the bound `construct_message` tests against. */
  const ParamsMaxSize: nat := 0x1_0000_0000

  function Pow256(k: nat): (p: nat)
    ensures p > 0
  {
    if k == 0 then 1 else 256 * Pow256(k - 1)
  }

  /** The low `k` bytes of `n`, most significant first. */
  function BigEndian(n: nat, k: nat): (r: seq<byte>)
    ensures |r| == k
  {
    if k == 0 then [] else BigEndian(n / 256, k - 1) + [n % 256]
  }

  /** The unsigned number a big-endian byte string spells. */
  function FromBigEndian(s: seq<byte>): (n: nat)
    ensures n < Pow256(|s|)
  {
    if |s| == 0 then 0 else FromBigEndian(s[..|s| - 1]) * 256 + s[|s| - 1]
  }

  /** Unpacking what was packed gives the number back, as long as it fits the width. */
  lemma {:induction false} BigEndianRoundTrip(n: nat, k: nat)
    requires n < Pow256(k)
    ensures FromBigEndian(BigEndian(n, k)) == n
  {
    if k > 0 {
      var s := BigEndian(n, k);
      assert s[..|s| - 1] == BigEndian(n / 256, k - 1);
      BigEndianRoundTrip(n / 256, k - 1);
    }
  }

  /** `struct.pack('!I', n)`: four big-endian bytes, and `struct.error` when `n` does not fit. */
  function PackLength(n: nat): (r: Result<seq<byte>, Fault>)
    ensures r.Ok? <==> n < ParamsMaxSize
    ensures r.Ok? ==> |r.value| == LengthFieldSize && FromBigEndian(r.value) == n
    ensures r.Err? ==> r.error == StructError
  {
    assert Pow256(4) == ParamsMaxSize;
    if n < ParamsMaxSize then
      BigEndianRoundTrip(n, 4);
      Ok(BigEndian(n, 4))
    else Err(StructError)
  }

  function Zeros(k: nat): (z: seq<byte>)
    ensures |z| == k && forall i :: 0 <= i < k ==> z[i] == 0
  {
    seq(k, i => 0)
  }

  /** `message_type.encode('utf-8').ljust(MSG_TYPE_LENGTH, b'\x00')` for a type that fits. */
  function PaddedType(msgType: string): (r: seq<byte>)
    requires |Utf8(msgType)| <= MsgTypeLength
    ensures |r| == MsgTypeLength && r[..|Utf8(msgType)|] == Utf8(msgType)
    ensures forall i :: |Utf8(msgType)| <= i < MsgTypeLength ==> r[i] == 0
  {
    var e := Utf8(msgType);
    assert (e + Zeros(MsgTypeLength - |e|))[..|e|] == e;
    e + Zeros(MsgTypeLength - |e|)
  }

  /**
   * `construct_message` as written. A payload longer than `2 ** 32` bytes
   * and a type longer than four bytes raise `ValueError`. A payload of
   * exactly `2 ** 32` bytes passes that test and then fails in
   * `struct.pack`.
   */
  function ConstructMessage(msgType: string, payload: seq<byte>): (r: Result<seq<byte>, Fault>)
    ensures r.Ok? <==> |payload| < ParamsMaxSize && |Utf8(msgType)| <= MsgTypeLength
    ensures r.Ok? ==> r.value == BigEndian(|payload|, LengthFieldSize) + PaddedType(msgType) + payload
    ensures |payload| > ParamsMaxSize || |Utf8(msgType)| > MsgTypeLength ==> r == Err(ValueError)
  {
    if |payload| > ParamsMaxSize then Err(ValueError)
    else if |Utf8(msgType)| > MsgTypeLength then Err(ValueError)
    else match PackLength(|payload|)
      case Ok(prefix) => Ok(prefix + (PaddedType(msgType) + payload))
      case Err(e) => Err(e)
  }

  /** The exact bound lets a `2 ** 32`-byte payload through, to a `struct.error` nobody catches. */
  lemma MaximalPayloadEscapes(msgType: string, payload: seq<byte>)
    requires |payload| == ParamsMaxSize && |Utf8(msgType)| <= MsgTypeLength
    ensures ConstructMessage(msgType, payload) == Err(StructError)
  {
  }

  /**
   * `construct_message` with the evidently intended bound: a payload whose
   * length does not fit the length field is rejected with `ValueError`.
   */
  function ConstructMessageFixed(msgType: string, payload: seq<byte>): (r: Result<seq<byte>, Fault>)
    ensures r.Err? ==> r.error == ValueError
    ensures r.Ok? <==> |payload| < ParamsMaxSize && |Utf8(msgType)| <= MsgTypeLength
    ensures |payload| != ParamsMaxSize ==> r == ConstructMessage(msgType, payload)
  {
    if |payload| >= ParamsMaxSize then Err(ValueError)
    else ConstructMessage(msgType, payload)
  }

  /** `encrypt_object` and `decrypt_object`: placeholders that return their argument. */
  function EncryptObject(m: seq<byte>): seq<byte>
  {
    m
  }

  function DecryptObject(m: seq<byte>): seq<byte>
  {
    m
  }

  /** Decrypting what was encrypted gives the message back. */
  lemma EncryptionRoundTrip(m: seq<byte>)
    ensures DecryptObject(EncryptObject(m)) == m
  {
  }

  /** The read loops of `receive_encrypted_message`: exactly `n` bytes, or `ConnectionError` once the peer has closed. */
  function ReadExactly(data: seq<byte>, n: int): (r: Outcome<seq<byte>>)
    ensures r.Done? ==> r.value + r.rest == data && |r.value| == (if n < 0 then 0 else n)
    ensures r.Done? <==> n <= |data|
    ensures r.Raised? ==> r.fault == ConnectionError
    ensures !r.Spins?
  {
    if n <= 0 then Done([], data)
    else if n <= |data| then Done(data[..n], data[n..])
    else Raised(ConnectionError)
  }

  method RecvExactly(sock: Socket, n: int) returns (r: Outcome<seq<byte>>)
    modifies sock
    ensures r == ReadExactly(old(sock.incoming), n)
    ensures r.Done? ==> sock.incoming == r.rest
  {
    var bytes := [];
    while |bytes| < n
      invariant bytes + sock.incoming == old(sock.incoming)
      invariant |bytes| <= n || bytes == []
      decreases n - |bytes|
    {
      ghost var before := sock.incoming;
      var b := sock.Recv1();
      if b == [] {
        return Raised(ConnectionError);
      }
      HeadTail(before);
      AppendAssoc(bytes, b, sock.incoming);
      bytes := bytes + b;
    }
    r := Done(bytes, sock.incoming);
    ConcatParts(bytes, sock.incoming);
  }

  /** The message type field and the parameter bytes of one frame. */
  datatype Fields = Fields(msgType: seq<byte>, params: seq<byte>)

  /** `receive_encrypted_message`: the length field, the type field, then exactly that many parameter bytes. */
  function Receive(data: seq<byte>): Outcome<Fields>
  {
    var len := ReadExactly(data, LengthFieldSize);
    if !len.Done? then Fail(len)
    else
      var t := ReadExactly(len.rest, MsgTypeLength);
      if !t.Done? then Fail(t)
      else
        var p := ReadExactly(t.rest, FromBigEndian(DecryptObject(len.value)));
        if !p.Done? then Fail(p)
        else Done(Fields(t.value, p.value), p.rest)
  }

  method ReceiveEncryptedMessage(sock: Socket) returns (r: Outcome<Fields>)
    modifies sock
    ensures r == Receive(old(sock.incoming))
    ensures r.Done? ==> sock.incoming == r.rest
  {
    var len := RecvExactly(sock, LengthFieldSize);
    if !len.Done? {
      return Fail(len);
    }
    var msgLength := FromBigEndian(DecryptObject(len.value));
    var t := RecvExactly(sock, MsgTypeLength);
    if !t.Done? {
      return Fail(t);
    }
    var p := RecvExactly(sock, msgLength);
    if !p.Done? {
      return Fail(p);
    }
    r := Done(Fields(t.value, p.value), sock.incoming);
  }

  /** A frame that reaches the receiver whole reads back as the padded type and the payload, and no more. */
  lemma RoundTrip(msgType: string, payload: seq<byte>, tail: seq<byte>)
    requires ConstructMessage(msgType, payload).Ok?
    ensures Receive(EncryptObject(ConstructMessage(msgType, payload).value) + tail) ==
            Done(Fields(PaddedType(msgType), payload), tail)
  {
    var prefix := BigEndian(|payload|, LengthFieldSize);
    var padded := PaddedType(msgType);
    var data := prefix + (padded + (payload + tail));
    assert EncryptObject(ConstructMessage(msgType, payload).value) + tail == data;
    assert data[..4] == prefix && data[4..] == padded + (payload + tail);
    assert Pow256(4) == ParamsMaxSize;
    BigEndianRoundTrip(|payload|, 4);
    var afterType := padded + (payload + tail);
    assert afterType[..4] == padded && afterType[4..] == payload + tail;
    assert (payload + tail)[..|payload|] == payload && (payload + tail)[|payload|..] == tail;
  }

  /** With the corrected bound, a frame is built whenever its length fits, and then it reads back. */
  lemma FixedRoundTrip(msgType: string, payload: seq<byte>, tail: seq<byte>)
    requires |payload| < ParamsMaxSize && |Utf8(msgType)| <= MsgTypeLength
    ensures ConstructMessageFixed(msgType, payload).Ok?
    ensures Receive(EncryptObject(ConstructMessageFixed(msgType, payload).value) + tail) ==
            Done(Fields(PaddedType(msgType), payload), tail)
  {
    RoundTrip(msgType, payload, tail);
  }
}
