/**
 * The text protocol of Peer/protocol.py: `<length>:<type>:<p1>:<p2>...`,
 * where the length counts the characters after the first ':'. The reader
 * decodes one byte at a time, so only ASCII messages read back.
 */
module PeerProtocol {
  import opened Wrappers
  import opened PyText
  import opened Wire

  const SendObject: string := "send"
  const RequestObject: string := "reqt"

  /** `MESSAGE_DIVIDER`. */
  const Divider: char := ':'

  /** `f"{msg_type}:{':'.join(msg_params)}"`, the part the length counts. */
  function Body(msgType: string, params: seq<string>): string
  {
    msgType + [Divider] + Join(params, Divider)
  }

  /** `encode_protocol`: the body's character count, ':', and the body. */
  function EncodeProtocol(msgType: string, params: seq<string>): (m: string)
    ensures |m| > |Body(msgType, params)|
    ensures m[|m| - |Body(msgType, params)|..] == Body(msgType, params)
  {
    var body := Body(msgType, params);
    var m := NatToDecimal(|body|) + [Divider] + body;
    assert m[|m| - |body|..] == body;
    m
  }

  /**
   * The second loop of `get_raw_message`: `n` decoded bytes. Once the peer
   * has closed, `recv(1)` decodes to "" and the loop never ends.
   */
  function Text(data: seq<byte>, n: int): (r: Outcome<string>)
    ensures r.Done? ==> |r.value| == (if n < 0 then 0 else n) && IsAscii(r.value)
    decreases if n < 0 then 0 else n
  {
    if n <= 0 then Done("", data)
    else if |data| == 0 then Spins
    else if data[0] >= 128 then Raised(UnicodeDecodeError)
    else match Text(data[1..], n - 1)
      case Done(s, rest) => Done([data[0] as char] + s, rest)
      case Raised(e) => Raised(e)
      case Spins => Spins
  }

  /** `get_raw_message`: the length up to ':', `int` of it, then that many characters. */
  function GetRawMessage(data: seq<byte>): (r: Outcome<string>)
  {
    var len := LengthField(data);
    if !len.Done? then Fail(len)
    else match PyInt(len.value)
      case None => Raised(ValueError)
      case Some(n) => Text(len.rest, n)
  }

  method ReadRawMessage(sock: Socket) returns (r: Outcome<string>)
    modifies sock
    ensures r == GetRawMessage(old(sock.incoming))
    ensures r.Done? ==> sock.incoming == r.rest
  {
    var len := ReadLengthField(sock);
    if !len.Done? {
      return Fail(len);
    }
    var n := PyInt(len.value);
    if n.None? {
      return Raised(ValueError);
    }
    var message := "";
    PrefixedNothing(Text(sock.incoming, n.value));
    while |message| < n.value
      invariant GetRawMessage(old(sock.incoming)) == Prefixed(message, Text(sock.incoming, n.value - |message|))
      invariant |message| <= n.value || message == ""
      decreases n.value - |message|
    {
      ghost var before := sock.incoming;
      var b := sock.Recv1();
      if b == [] {
        return Spins;
      }
      if b[0] >= 128 {
        return Raised(UnicodeDecodeError);
      }
      PrefixedTwice(message, [b[0] as char], Text(sock.incoming, n.value - |message| - 1));
      assert Text(before, n.value - |message|) == Prefixed([b[0] as char], Text(sock.incoming, n.value - |message| - 1));
      message := message + [b[0] as char];
    }
    r := Done(message, sock.incoming);
    assert message + "" == message;
  }

  /** `decode_protocol`: the first ':'-separated piece is the type, the others are the parameters. */
  function DecodeProtocol(raw: string): (r: (string, seq<string>))
    ensures [r.0] + r.1 == Split(raw, Divider)
  {
    var parts := Split(raw, Divider);
    (parts[0], parts[1..])
  }

  /** Reading back `n` ASCII characters that were sent. */
  lemma {:induction false} TextOf(s: string, rest: seq<byte>)
    requires IsAscii(s)
    ensures Text(Utf8(s) + rest, |s|) == Done(s, rest)
  {
    if |s| > 0 {
      AsciiCons(s, rest);
      TextOf(s[1..], rest);
    }
  }

  lemma {:induction false} JoinAscii(parts: seq<string>, c: char)
    requires (c as int) < 128
    requires forall i :: 0 <= i < |parts| ==> IsAscii(parts[i])
    ensures IsAscii(Join(parts, c))
  {
    if |parts| > 1 {
      JoinAscii(parts[1..], c);
      var j := Join(parts[1..], c);
      var s := parts[0] + [c] + j;
      forall i | 0 <= i < |s| ensures (s[i] as int) < 128 {
        if i < |parts[0]| {
          assert s[i] == parts[0][i];
        } else if i > |parts[0]| {
          assert s[i] == j[i - |parts[0]| - 1];
        }
      }
    }
  }

  lemma BodyAscii(msgType: string, params: seq<string>)
    requires IsAscii(msgType) && forall i :: 0 <= i < |params| ==> IsAscii(params[i])
    ensures IsAscii(Body(msgType, params))
  {
    var body := Body(msgType, params);
    var j := Join(params, Divider);
    JoinAscii(params, Divider);
    forall i | 0 <= i < |body| ensures (body[i] as int) < 128 {
      if i < |msgType| {
        assert body[i] == msgType[i];
      } else if i > |msgType| {
        assert body[i] == j[i - |msgType| - 1];
      }
    }
  }

  /** The bytes of an encoded message: the decimal length, ':', the body. */
  lemma EncodedBytes(msgType: string, params: seq<string>, tail: seq<byte>)
    ensures Utf8(EncodeProtocol(msgType, params)) + tail ==
            Utf8(NatToDecimal(|Body(msgType, params)|)) + [Colon] + (Utf8(Body(msgType, params)) + tail)
  {
    var body := Body(msgType, params);
    var digits := NatToDecimal(|body|);
    assert EncodeProtocol(msgType, params) == digits + [Divider] + body;
    assert Utf8(digits + [Divider] + body) == Utf8(digits) + [Colon] + Utf8(body) by {
      Utf8Append(digits + [Divider], body);
      Utf8Append(digits, [Divider]);
      assert Utf8([Divider]) == [Colon];
    }
    AppendAssoc(Utf8(digits) + [Colon], Utf8(body), tail);
  }

  /** An encoded ASCII message is read back whole, and the bytes after it are left unread. */
  lemma ReadEncoded(msgType: string, params: seq<string>, tail: seq<byte>)
    requires IsAscii(msgType) && forall i :: 0 <= i < |params| ==> IsAscii(params[i])
    ensures GetRawMessage(Utf8(EncodeProtocol(msgType, params)) + tail) == Done(Body(msgType, params), tail)
  {
    var body := Body(msgType, params);
    var digits := NatToDecimal(|body|);
    BodyAscii(msgType, params);
    EncodedBytes(msgType, params, tail);
    DecimalIsPlain(|body|);
    LengthFieldOf(digits, Utf8(body) + tail);
    PyIntOfDecimal(|body|);
    TextOf(body, tail);
  }

  /**
   * The protocol round trip: a type and at least one parameter, ASCII and
   * free of ':', come back as sent.
   */
  lemma RoundTrip(msgType: string, params: seq<string>, tail: seq<byte>)
    requires IsAscii(msgType) && Divider !in msgType
    requires |params| >= 1 && forall i :: 0 <= i < |params| ==> IsAscii(params[i]) && Divider !in params[i]
    ensures var r := GetRawMessage(Utf8(EncodeProtocol(msgType, params)) + tail);
            r.Done? && r.rest == tail && DecodeProtocol(r.value) == (msgType, params)
  {
    ReadEncoded(msgType, params, tail);
    SplitJoin(params, Divider);
    SplitAfterPiece(msgType, Join(params, Divider), Divider);
  }

  /** Without parameters the body ends in ':', so it decodes to the one parameter "". */
  lemma NoParamsDecodeToEmpty(msgType: string, tail: seq<byte>)
    requires IsAscii(msgType) && Divider !in msgType
    ensures var r := GetRawMessage(Utf8(EncodeProtocol(msgType, [])) + tail);
            r.Done? && DecodeProtocol(r.value) == (msgType, [""])
  {
    ReadEncoded(msgType, [], tail);
    SplitAfterPiece(msgType, "", Divider);
    assert msgType + [Divider] + "" == Body(msgType, []);
  }

  /** A ':' inside a parameter splits it: the receiver sees one parameter more. */
  lemma DividerInParameterSplits()
    ensures DecodeProtocol(Body("send", ["a:b"])) == ("send", ["a", "b"])
  {
    assert Body("send", ["a:b"]) == "send" + [Divider] + "a:b";
    SplitAfterPiece("send", "a:b", Divider);
    assert "a:b" == "a" + [Divider] + "b";
    SplitAfterPiece("a", "b", Divider);
    SplitNoSeparator("b", Divider);
    var parts := Split(Body("send", ["a:b"]), Divider);
    assert parts == ["send"] + (["a"] + ["b"]);
    assert parts[1..] == ["a", "b"];
  }
}
