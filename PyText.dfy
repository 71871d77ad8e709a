/**
 * The pieces of Python's built-in behaviour that the modelled code relies on:
 * slicing with possibly negative bounds, `c * n`, the `h[:d] == "0" * d`
 * difficulty test, decimal `str(n)` and `int(s)`, one-byte `.decode()`,
 * `str.encode()` (UTF-8), `rstrip("0")`, and `split`/`join` on one character.
 */
module PyText {
  import opened Wrappers

  type byte = x: int | 0 <= x < 256

  // ---------------------------------------------------------------- slicing

  /** Taking one element more appends that element. */
  lemma TakeOneMore<T>(s: seq<T>, k: nat)
    requires k < |s|
    ensures s[..k + 1] == s[..k] + [s[k]]
  {
  }

  /** Python's `s[:n]`: a negative `n` counts from the end. */
  function PyTake<T>(s: seq<T>, n: int): (r: seq<T>)
    ensures |r| <= |s|
    ensures 0 <= n <= |s| ==> r == s[..n]
    ensures n > |s| ==> r == s
    ensures -|s| <= n < 0 ==> r == s[..|s| + n]
    ensures n < -|s| ==> r == []
  {
    if n >= 0 then s[..if n <= |s| then n else |s|]
    else s[..if |s| + n >= 0 then |s| + n else 0]
  }

  /** Python's `s[n:]`: a negative `n` counts from the end. */
  function PyDrop<T>(s: seq<T>, n: int): (r: seq<T>)
    ensures |r| <= |s|
    ensures 0 <= n <= |s| ==> r == s[n..]
    ensures n > |s| ==> r == []
    ensures -|s| <= n < 0 ==> r == s[|s| + n..]
    ensures n < -|s| ==> r == s
  {
    if n >= 0 then s[if n <= |s| then n else |s|..]
    else s[if |s| + n >= 0 then |s| + n else 0..]
  }

  /** Python's `c * n` for a one-character string: empty when `n <= 0`. */
  function Repeat(c: char, n: int): (r: string)
    ensures |r| == if n <= 0 then 0 else n
    ensures forall i :: 0 <= i < |r| ==> r[i] == c
    decreases if n <= 0 then 0 else n
  {
    if n <= 0 then "" else [c] + Repeat(c, n - 1)
  }

  /** The proof-of-work test `h[:d] == "0" * d` used by every miner and chain. */
  predicate MeetsDifficulty(h: string, d: int)
  {
    PyTake(h, d) == Repeat('0', d)
  }

  /** For a non-negative difficulty the test means: at least `d` characters, the first `d` all '0'. */
  lemma MeetsDifficultyMeaning(h: string, d: nat)
    ensures MeetsDifficulty(h, d) <==> (d <= |h| && forall i :: 0 <= i < d ==> h[i] == '0')
  {
    if d <= |h| && forall i :: 0 <= i < d ==> h[i] == '0' {
      assert PyTake(h, d) == Repeat('0', d);
    }
  }

  // ---------------------------------------------------------------- decimal

  function DigitChar(d: nat): (c: char)
    requires d < 10
    ensures '0' <= c <= '9'
  {
    ['0', '1', '2', '3', '4', '5', '6', '7', '8', '9'][d]
  }

  predicate IsDigit(c: char) { '0' <= c <= '9' }

  function DigitValue(c: char): (d: nat)
    requires IsDigit(c)
    ensures d < 10
  {
    (c as int) - ('0' as int)
  }

  predicate AllDigits(s: string) { forall i :: 0 <= i < |s| ==> IsDigit(s[i]) }

  /** Python's `str(n)` for a natural number. */
  function NatToDecimal(n: nat): (s: string)
    decreases n
  {
    if n < 10 then [DigitChar(n)] else NatToDecimal(n / 10) + [DigitChar(n % 10)]
  }

  /** The value of a string of decimal digits (most significant first). */
  function DigitsValue(s: string): nat
    requires AllDigits(s)
  {
    if |s| == 0 then 0 else DigitsValue(s[..|s| - 1]) * 10 + DigitValue(s[|s| - 1])
  }

  lemma {:induction false} NatToDecimalDigits(n: nat)
    ensures |NatToDecimal(n)| > 0 && AllDigits(NatToDecimal(n))
    ensures DigitsValue(NatToDecimal(n)) == n
    decreases n
  {
    if n >= 10 {
      NatToDecimalDigits(n / 10);
      var s := NatToDecimal(n / 10) + [DigitChar(n % 10)];
      assert s[..|s| - 1] == NatToDecimal(n / 10);
      assert DigitValue(DigitChar(n % 10)) == n % 10;
    } else {
      assert DigitValue(DigitChar(n)) == n;
    }
  }

  /** Python's `str(i)` for any integer. */
  function IntToDecimal(i: int): string
  {
    if i < 0 then "-" + NatToDecimal(-i) else NatToDecimal(i)
  }

  /**
   * Python's `int(s)` on the forms the framing code produces and reads: an
   * optional sign followed by at least one decimal digit. Anything else is the
   * `ValueError` case (None).
   */
  function PyInt(s: string): (r: Option<int>)
    ensures r.Some? ==> |s| > 0
  {
    if |s| > 0 && (s[0] == '-' || s[0] == '+') then
      if |s| > 1 && AllDigits(s[1..]) then
        var v: int := DigitsValue(s[1..]);
        Some(if s[0] == '-' then -v else v)
      else None
    else if |s| > 0 && AllDigits(s) then Some(DigitsValue(s))
    else None
  }

  lemma PyIntOfDecimal(n: nat)
    ensures PyInt(NatToDecimal(n)) == Some(n)
  {
    NatToDecimalDigits(n);
  }

  // ---------------------------------------------------------------- bytes and text

  /** `str.encode()` of one character: its UTF-8 bytes. */
  function Utf8Char(c: char): (r: seq<byte>)
    ensures 1 <= |r| <= 4
    ensures (c as int) < 128 <==> |r| == 1
    ensures (c as int) < 128 ==> r == [c as int]
  {
    var v := c as int;
    if v < 0x80 then [v] else Utf8Multi(v)
  }

  /** The two to four bytes of a code point from 0x80 on. */
  function Utf8Multi(v: int): (r: seq<byte>)
    requires 0x80 <= v < 0x110000
    ensures 2 <= |r| <= 4
  {
    if v < 0x800 then [0xC0 + v / 0x40, 0x80 + v % 0x40]
    else if v < 0x10000 then [0xE0 + v / 0x1000, 0x80 + (v / 0x40) % 0x40, 0x80 + v % 0x40]
    else [0xF0 + (v / 0x40000) % 8, 0x80 + (v / 0x1000) % 0x40, 0x80 + (v / 0x40) % 0x40, 0x80 + v % 0x40]
  }

  /** `str.encode()`: the UTF-8 encoding of a string. */
  function Utf8(s: string): (r: seq<byte>)
    ensures |r| >= |s|
  {
    if |s| == 0 then [] else Utf8Char(s[0]) + Utf8(s[1..])
  }

  predicate IsAscii(s: string) { forall i :: 0 <= i < |s| ==> (s[i] as int) < 128 }

  /** An ASCII string encodes to one byte per character, each byte its code. */
  lemma {:induction false} Utf8Ascii(s: string)
    requires IsAscii(s)
    ensures |Utf8(s)| == |s|
    ensures forall i :: 0 <= i < |s| ==> Utf8(s)[i] == s[i] as int
  {
    if |s| > 0 {
      assert IsAscii(s[1..]) by {
        forall i | 0 <= i < |s[1..]| ensures (s[1..][i] as int) < 128 { assert s[1..][i] == s[i + 1]; }
      }
      Utf8Ascii(s[1..]);
    }
  }

  /** An ASCII string and its bytes, split after the first character. */
  lemma AsciiCons(s: string, rest: seq<byte>)
    requires IsAscii(s) && |s| > 0
    ensures IsAscii(s[1..]) && [s[0]] + s[1..] == s
    ensures var d := Utf8(s) + rest; |d| > 0 && d[0] == s[0] as int && d[1..] == Utf8(s[1..]) + rest
  {
    AsciiTail(s);
    HeadTail(s);
    Utf8Cons(s, rest);
  }

  lemma AsciiTail(s: string)
    requires IsAscii(s) && |s| > 0
    ensures IsAscii(s[1..])
  {
    forall i | 0 <= i < |s[1..]| ensures (s[1..][i] as int) < 128 {
      assert s[1..][i] == s[i + 1];
    }
  }

  lemma AppendAssoc<T>(a: seq<T>, b: seq<T>, c: seq<T>)
    ensures a + b + c == a + (b + c)
  {
  }

  lemma ConcatParts<T>(a: seq<T>, b: seq<T>)
    ensures (a + b)[..|a|] == a && (a + b)[|a|..] == b
  {
  }

  lemma HeadTail<T>(s: seq<T>)
    requires |s| > 0
    ensures [s[0]] + s[1..] == s
  {
  }

  lemma Utf8Cons(s: string, rest: seq<byte>)
    requires |s| > 0 && (s[0] as int) < 128
    ensures var d := Utf8(s) + rest; |d| > 0 && d[0] == s[0] as int && d[1..] == Utf8(s[1..]) + rest
  {
    var u := Utf8(s[1..]);
    assert Utf8Char(s[0]) == [s[0] as int];
    assert Utf8(s) == [s[0] as int] + u;
    assert [s[0] as int] + u + rest == [s[0] as int] + (u + rest);
  }

  lemma {:induction false} Utf8Append(a: string, b: string)
    ensures Utf8(a + b) == Utf8(a) + Utf8(b)
  {
    if |a| == 0 {
      assert a + b == b;
    } else {
      assert (a + b)[0] == a[0] && (a + b)[1..] == a[1..] + b;
      Utf8Append(a[1..], b);
      AppendAssoc(Utf8Char(a[0]), Utf8(a[1..]), Utf8(b));
    }
  }

  /** `sock.recv(1).decode()`: a single byte decodes only when it is ASCII. */
  function DecodeByte(b: byte): (r: Option<char>)
    ensures r.Some? <==> b < 128
  {
    if b < 128 then Some(b as char) else None
  }

  /** The number of '0' characters that `rstrip("0")` removes. */
  function TrailingZeros(s: string): (n: nat)
    ensures n <= |s|
    ensures forall i :: |s| - n <= i < |s| ==> s[i] == '0'
    ensures n < |s| ==> s[|s| - n - 1] != '0'
  {
    if |s| == 0 || s[|s| - 1] != '0' then 0 else TrailingZeros(s[..|s| - 1]) + 1
  }

  // ---------------------------------------------------------------- split and join

  /** Python's `s.split(c)` for a one-character separator: never empty. */
  function Split(s: string, c: char): (r: seq<string>)
    ensures |r| >= 1
  {
    if |s| == 0 then [""]
    else if s[0] == c then [""] + Split(s[1..], c)
    else var rest := Split(s[1..], c); [[s[0]] + rest[0]] + rest[1..]
  }

  /** Python's `c.join(parts)`: the empty list joins to the empty string. */
  function Join(parts: seq<string>, c: char): string
  {
    if |parts| == 0 then ""
    else if |parts| == 1 then parts[0]
    else parts[0] + [c] + Join(parts[1..], c)
  }

  lemma {:induction false} SplitNoSeparator(s: string, c: char)
    requires c !in s
    ensures Split(s, c) == [s]
  {
    if |s| > 0 {
      SplitNoSeparator(s[1..], c);
      assert [s[0]] + s[1..] == s;
    }
  }

  lemma {:induction false} SplitAfterPiece(a: string, b: string, c: char)
    requires c !in a
    ensures Split(a + [c] + b, c) == [a] + Split(b, c)
  {
    if |a| == 0 {
      assert a + [c] + b == [c] + b;
      assert ([c] + b)[1..] == b;
    } else {
      var s := a + [c] + b;
      assert s[0] == a[0] && s[1..] == a[1..] + [c] + b;
      SplitAfterPiece(a[1..], b, c);
      assert [a[0]] + a[1..] == a;
    }
  }

  /** Splitting a join gives the pieces back when no piece holds the separator. */
  lemma {:induction false} SplitJoin(parts: seq<string>, c: char)
    requires |parts| >= 1
    requires forall i :: 0 <= i < |parts| ==> c !in parts[i]
    ensures Split(Join(parts, c), c) == parts
  {
    if |parts| == 1 {
      SplitNoSeparator(parts[0], c);
    } else {
      SplitJoin(parts[1..], c);
      SplitAfterPiece(parts[0], Join(parts[1..], c), c);
      assert [parts[0]] + parts[1..] == parts;
    }
  }
}
