/**
 * What the socket protocols share: a connected socket as the stream of bytes
 * still to arrive, and the text framing of communication/protocol.py and
 * core_communication/protocol.py — a decimal length, ':', a 4-character type,
 * a 4-character subtype and then the payload bytes. Each field is read one
 * `recv(1)` at a time and each text byte is decoded on its own.
 *
 * Once the peer has closed, `recv(1)` returns `b""` for ever; the loops that
 * wait for ':' or for more payload then never end. The model's `Spins` stands
 * for that, and its methods return `Spins` instead of looping.
 */
module Wire {
  import opened Wrappers
  import opened PyText

  /** The exceptions the framing code can raise. */
  datatype Fault = UnicodeDecodeError | ValueError | AttributeError | IndexError | ConnectionError | StructError

  /** How a read ends: a value and the bytes left unread, an exception, or a loop that never ends. */
  datatype Outcome<T> = Done(value: T, rest: seq<byte>) | Raised(fault: Fault) | Spins

  /** The same failure at another result type. */
  function Fail<A, B>(r: Outcome<A>): (f: Outcome<B>)
    requires !r.Done?
    ensures r.Raised? ==> f == Raised(r.fault)
    ensures r.Spins? ==> f.Spins?
  {
    if r.Raised? then Raised(r.fault) else Spins
  }

  /** `acc` read in front of whatever `r` reads next. */
  function Prefixed(acc: string, r: Outcome<string>): Outcome<string>
  {
    match r
    case Done(s, rest) => Done(acc + s, rest)
    case Raised(e) => Raised(e)
    case Spins => Spins
  }

  lemma PrefixedNothing(r: Outcome<string>)
    ensures Prefixed("", r) == r
  {
    if r.Done? {
      assert "" + r.value == r.value;
    }
  }

  lemma PrefixedTwice(a: string, b: string, r: Outcome<string>)
    ensures Prefixed(a, Prefixed(b, r)) == Prefixed(a + b, r)
  {
    if r.Done? {
      assert a + (b + r.value) == (a + b) + r.value;
    }
  }

  /** The reading side of a socket: the bytes the peer has sent and this side has not yet read. */
  class Socket {
    var incoming: seq<byte>

    constructor (incoming: seq<byte>)
      ensures this.incoming == incoming
    {
      this.incoming := incoming;
    }

    /** `sock.recv(1)`: the next byte, or `b""` once the peer has closed and nothing is left. */
    method Recv1() returns (b: seq<byte>)
      modifies this
      ensures |old(incoming)| == 0 ==> b == [] && incoming == old(incoming)
      ensures |old(incoming)| > 0 ==> b == [old(incoming)[0]] && incoming == old(incoming)[1..]
    {
      if |incoming| == 0 {
        b := [];
      } else {
        b := [incoming[0]];
        incoming := incoming[1..];
      }
    }
  }

  /** `b":"`, the divider after the length. */
  const Colon: byte := 58

  /**
   * The length loop: characters up to the first ':', which is consumed. A
   * byte that is not ASCII does not decode on its own; a stream without ':'
   * leaves the loop waiting for ever.
   */
  function LengthField(data: seq<byte>): (r: Outcome<string>)
    ensures r.Done? ==> |r.rest| < |data| && IsAscii(r.value) && ':' !in r.value
  {
    if |data| == 0 then Spins
    else if data[0] >= 128 then Raised(UnicodeDecodeError)
    else if data[0] == Colon then Done("", data[1..])
    else match LengthField(data[1..])
      case Done(s, rest) => Done([data[0] as char] + s, rest)
      case Raised(e) => Raised(e)
      case Spins => Spins
  }

  /** The length loop (communication/protocol.py, core_communication/protocol.py, Peer/protocol.py). */
  method ReadLengthField(sock: Socket) returns (r: Outcome<string>)
    modifies sock
    ensures r == LengthField(old(sock.incoming))
    ensures r.Done? ==> sock.incoming == r.rest
  {
    var text := "";
    PrefixedNothing(LengthField(sock.incoming));
    while true
      invariant LengthField(old(sock.incoming)) == Prefixed(text, LengthField(sock.incoming))
      decreases |sock.incoming|
    {
      ghost var before := sock.incoming;
      var b := sock.Recv1();
      if b == [] {
        return Spins;
      }
      if b[0] >= 128 {
        return Raised(UnicodeDecodeError);
      }
      if b[0] == Colon {
        r := Done(text, sock.incoming);
        assert text + "" == text;
        return;
      }
      PrefixedTwice(text, [b[0] as char], LengthField(sock.incoming));
      assert LengthField(before) == Prefixed([b[0] as char], LengthField(sock.incoming));
      text := text + [b[0] as char];
    }
  }

  /**
   * `get_msg_section(sock, k)`: `k` reads of one decoded byte each. Once the
   * stream is empty a read gives "", so the section comes out short.
   */
  function Section(data: seq<byte>, k: nat): (r: Outcome<string>)
    ensures r.Done? ==> |r.value| == (if k < |data| then k else |data|) && r.rest == data[|r.value|..]
    ensures r.Done? ==> forall i :: 0 <= i < |r.value| ==> r.value[i] as int == data[i]
    ensures !r.Spins?
  {
    if k == 0 || |data| == 0 then Done("", data)
    else if data[0] >= 128 then Raised(UnicodeDecodeError)
    else match Section(data[1..], k - 1)
      case Done(s, rest) => Done([data[0] as char] + s, rest)
      case Raised(e) => Raised(e)
  }

  method GetMsgSection(sock: Socket, length: nat) returns (r: Outcome<string>)
    modifies sock
    ensures r == Section(old(sock.incoming), length)
    ensures r.Done? ==> sock.incoming == r.rest
  {
    var section := "";
    PrefixedNothing(Section(sock.incoming, length));
    for i := 0 to length
      invariant Section(old(sock.incoming), length) == Prefixed(section, Section(sock.incoming, length - i))
    {
      ghost var before := sock.incoming;
      var b := sock.Recv1();
      if b == [] {
        assert Section(before, length - i) == Done("", before);
        assert Section(sock.incoming, length - i - 1) == Done("", before);
      } else if b[0] >= 128 {
        return Raised(UnicodeDecodeError);
      } else {
        PrefixedTwice(section, [b[0] as char], Section(sock.incoming, length - i - 1));
        section := section + [b[0] as char];
      }
    }
    r := Done(section, sock.incoming);
    assert section + "" == section;
  }

  /**
   * The payload loop: `while len(byte_sequence) < n` appends one `recv(1)`
   * at a time, so a length of at most 0 reads nothing and a stream shorter
   * than `n` never satisfies the loop.
   */
  function Payload(data: seq<byte>, n: int): (r: Outcome<seq<byte>>)
    ensures r.Done? ==> r.value + r.rest == data && |r.value| == (if n < 0 then 0 else n)
    ensures !r.Raised?
  {
    if n <= 0 then Done([], data)
    else if n <= |data| then Done(data[..n], data[n..])
    else Spins
  }

  method ReadPayload(sock: Socket, n: int) returns (r: Outcome<seq<byte>>)
    modifies sock
    ensures r == Payload(old(sock.incoming), n)
    ensures r.Done? ==> sock.incoming == r.rest
  {
    var bytes := [];
    while |bytes| < n
      invariant bytes + sock.incoming == old(sock.incoming)
      invariant |bytes| <= n || bytes == []
      decreases n - |bytes|
    {
      var b := sock.Recv1();
      if b == [] {
        return Spins;
      }
      bytes := bytes + b;
    }
    r := Done(bytes, sock.incoming);
  }

  /** A text frame: type, subtype and the payload bytes, absent when the length is 0. */
  datatype Frame = Frame(msgType: string, msgSubtype: string, payload: Option<seq<byte>>)

  /** The framing part of `receive_socket_message`: length, type, subtype, then the payload. */
  function ReceiveFrame(data: seq<byte>): (r: Outcome<Frame>)
  {
    var len := LengthField(data);
    if !len.Done? then Fail(len)
    else match PyInt(len.value)
      case None => Raised(ValueError)
      case Some(n) =>
        var t := Section(len.rest, 4);
        if !t.Done? then Fail(t)
        else
          var st := Section(t.rest, 4);
          if !st.Done? then Fail(st)
          else if n == 0 then Done(Frame(t.value, st.value, None), st.rest)
          else
            var p := Payload(st.rest, n);
            if !p.Done? then Fail(p)
            else Done(Frame(t.value, st.value, Some(p.value)), p.rest)
  }

  /** The reading steps of `receive_socket_message`, in the order the source performs them. */
  method ReceiveSocketFrame(sock: Socket) returns (r: Outcome<Frame>)
    modifies sock
    ensures r == ReceiveFrame(old(sock.incoming))
    ensures r.Done? ==> sock.incoming == r.rest
  {
    var len := ReadLengthField(sock);
    if !len.Done? {
      return Fail(len);
    }
    var n := PyInt(len.value);
    if n.None? {
      return Raised(ValueError);
    }
    var t := GetMsgSection(sock, 4);
    if !t.Done? {
      return Fail(t);
    }
    var st := GetMsgSection(sock, 4);
    if !st.Done? {
      return Fail(st);
    }
    if n.value == 0 {
      return Done(Frame(t.value, st.value, None), sock.incoming);
    }
    var p := ReadPayload(sock, n.value);
    if !p.Done? {
      return Fail(p);
    }
    r := Done(Frame(t.value, st.value, Some(p.value)), sock.incoming);
  }

  /**
   * The bytes a sender writes: the decimal payload length ("0" without a
   * payload), ':', type, subtype and the payload.
   */
  function FrameBytes(msgType: string, msgSubtype: string, payload: Option<seq<byte>>): seq<byte>
  {
    var body := if payload.Some? then payload.value else [];
    Utf8(NatToDecimal(|body|)) + [Colon] + Utf8(msgType) + Utf8(msgSubtype) + body
  }

  /** Reading a length field that a sender wrote. */
  lemma LengthFieldOf(s: string, rest: seq<byte>)
    requires IsAscii(s) && ':' !in s
    ensures LengthField(Utf8(s) + [Colon] + rest) == Done(s, rest)
  {
    AppendAssoc(Utf8(s), [Colon], rest);
    LengthFieldBefore(s, [Colon] + rest);
    assert ([Colon] + rest)[1..] == rest;
  }

  lemma {:induction false} LengthFieldBefore(s: string, tail: seq<byte>)
    requires IsAscii(s) && ':' !in s
    requires |tail| > 0 && tail[0] == Colon
    ensures LengthField(Utf8(s) + tail) == Done(s, tail[1..])
  {
    if |s| == 0 {
      assert Utf8(s) + tail == tail;
    } else {
      AsciiCons(s, tail);
      assert ':' !in s[1..];
      LengthFieldBefore(s[1..], tail);
    }
  }

  /** Reading a section that a sender wrote with exactly `k` ASCII characters. */
  lemma {:induction false} SectionOf(s: string, rest: seq<byte>, k: nat)
    requires IsAscii(s) && |s| == k
    ensures Section(Utf8(s) + rest, k) == Done(s, rest)
  {
    if k > 0 {
      AsciiCons(s, rest);
      SectionOf(s[1..], rest, k - 1);
    }
  }

  /** Decimal digits are ASCII and contain no ':'. */
  lemma DecimalIsPlain(n: nat)
    ensures IsAscii(NatToDecimal(n)) && ':' !in NatToDecimal(n)
  {
    NatToDecimalDigits(n);
    var s := NatToDecimal(n);
    forall i | 0 <= i < |s| ensures (s[i] as int) < 128 && s[i] != ':' {
      assert IsDigit(s[i]);
    }
  }

  /** `ReceiveFrame` once its four text fields have been read. */
  lemma ReceiveFrameOfFields(data: seq<byte>, digits: string, n: int, t: string, st: string,
                             afterLen: seq<byte>, afterType: seq<byte>, afterSubtype: seq<byte>)
    requires LengthField(data) == Done(digits, afterLen) && PyInt(digits) == Some(n)
    requires Section(afterLen, 4) == Done(t, afterType) && Section(afterType, 4) == Done(st, afterSubtype)
    ensures n == 0 ==> ReceiveFrame(data) == Done(Frame(t, st, None), afterSubtype)
    ensures n > 0 && n <= |afterSubtype| ==>
              ReceiveFrame(data) == Done(Frame(t, st, Some(afterSubtype[..n])), afterSubtype[n..])
  {
  }

  /**
   * The framing round trip: a frame with 4-character ASCII type and subtype
   * and a non-empty payload (or none) reads back as written, and the bytes
   * after it are left for the next read.
   */
  lemma FrameRoundTrip(msgType: string, msgSubtype: string, payload: Option<seq<byte>>, tail: seq<byte>)
    requires IsAscii(msgType) && |msgType| == 4 && IsAscii(msgSubtype) && |msgSubtype| == 4
    requires payload.Some? ==> |payload.value| > 0
    ensures ReceiveFrame(FrameBytes(msgType, msgSubtype, payload) + tail) == Done(Frame(msgType, msgSubtype, payload), tail)
  {
    var body := if payload.Some? then payload.value else [];
    var digits := NatToDecimal(|body|);
    var afterSubtype := body + tail;
    var afterType := Utf8(msgSubtype) + afterSubtype;
    var afterLen := Utf8(msgType) + afterType;
    var data := Utf8(digits) + [Colon] + afterLen;
    assert FrameBytes(msgType, msgSubtype, payload) + tail == data by {
      FrameBytesParts(digits, msgType, msgSubtype, body, tail);
    }
    DecimalIsPlain(|body|);
    LengthFieldOf(digits, afterLen);
    PyIntOfDecimal(|body|);
    SectionOf(msgType, afterType, 4);
    SectionOf(msgSubtype, afterSubtype, 4);
    ReceiveFrameOfFields(data, digits, |body|, msgType, msgSubtype, afterLen, afterType, afterSubtype);
    if payload.Some? {
      ConcatParts(body, tail);
    } else {
      assert afterSubtype == tail;
    }
  }

  lemma FrameBytesParts(digits: string, msgType: string, msgSubtype: string, body: seq<byte>, tail: seq<byte>)
    ensures Utf8(digits) + [Colon] + Utf8(msgType) + Utf8(msgSubtype) + body + tail ==
            Utf8(digits) + [Colon] + (Utf8(msgType) + (Utf8(msgSubtype) + (body + tail)))
  {
  }
}
