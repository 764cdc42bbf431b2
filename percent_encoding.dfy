/**
  RFC 3986 percent-encoding as `Uri.EscapeDataString` performs it: the
  unreserved characters of section 2.3 of RFC 3986 pass through, every other
  character is UTF-8 encoded and each byte written as `%HH` with upper-case
  hexadecimal digits.
 */
module PercentEncoding {
  import opened Wrappers
  import opened Strings

  /** Section 2.3 of RFC 3986: ALPHA / DIGIT / "-" / "." / "_" / "~". */
  predicate Unreserved(c: char)
  {
    ('A' <= c <= 'Z') || ('a' <= c <= 'z') || ('0' <= c <= '9') || c == '-' || c == '.' || c == '_' || c == '~'
  }

  predicate IsHexDigit(c: char)
  {
    ('0' <= c <= '9') || ('A' <= c <= 'F')
  }

  function HexDigit(n: nat): (c: char)
    requires n < 16
    ensures IsHexDigit(c) && Unreserved(c)
  {
    if n < 10 then ('0' as int + n) as char else ('A' as int + n - 10) as char
  }

  function HexValue(c: char): (n: nat)
    requires IsHexDigit(c)
    ensures n < 16
  {
    if '0' <= c <= '9' then c as int - '0' as int else c as int - 'A' as int + 10
  }

  lemma HexRoundTrip(n: nat)
    requires n < 16
    ensures HexValue(HexDigit(n)) == n
  {
  }

  /** The UTF-8 encoding of one Unicode scalar value. */
  function Utf8(c: char): (bs: seq<Byte>)
    ensures 1 <= |bs| <= 4
    ensures (c as int) < 0x80 ==> bs == [c as int]
  {
    var n := c as int;
    if n < 0x80 then [n]
    else if n < 0x800 then [0xC0 + n / 64, 0x80 + n % 64]
    else if n < 0x1_0000 then [0xE0 + n / 4096, 0x80 + (n / 64) % 64, 0x80 + n % 64]
    else [0xF0 + n / 262144, 0x80 + (n / 4096) % 64, 0x80 + (n / 64) % 64, 0x80 + n % 64]
  }

  function Utf8Bytes(s: string): seq<Byte>
  {
    if s == [] then [] else Utf8(s[0]) + Utf8Bytes(s[1..])
  }

  function EscapeByte(b: Byte): string
  {
    ['%', HexDigit(b / 16), HexDigit(b % 16)]
  }

  function EscapeBytes(bs: seq<Byte>): (t: string)
    ensures |t| == 3 * |bs|
    ensures forall i :: 0 <= i < |t| ==> Unreserved(t[i]) || t[i] == '%'
  {
    if bs == [] then [] else EscapeByte(bs[0]) + EscapeBytes(bs[1..])
  }

  function EncodeChar(c: char): string
  {
    if Unreserved(c) then [c] else EscapeBytes(Utf8(c))
  }

  /** `Uri.EscapeDataString(s)`. */
  function Encode(s: string): string
  {
    if s == [] then [] else EncodeChar(s[0]) + Encode(s[1..])
  }

  function Prepend(b: Byte, rest: Option<seq<Byte>>): Option<seq<Byte>>
  {
    match rest
    case None => None
    case Some(bs) => Some([b] + bs)
  }

  /**
    Percent-decoding to bytes: the reference reading of Encode. It accepts
    only unreserved characters and `%HH` triples, and yields None otherwise.
   */
  function Unescape(t: string): Option<seq<Byte>>
  {
    if t == [] then Some([])
    else if t[0] == '%' then
      if |t| >= 3 && IsHexDigit(t[1]) && IsHexDigit(t[2])
      then Prepend(HexValue(t[1]) * 16 + HexValue(t[2]), Unescape(t[3..]))
      else None
    else if Unreserved(t[0]) then Prepend(t[0] as int, Unescape(t[1..]))
    else None
  }

  /** Bytes written as `%HH` triples decode back to themselves, whatever follows. */
  lemma {:induction false} UnescapeEscaped(bs: seq<Byte>, rest: string)
    ensures Unescape(EscapeBytes(bs) + rest) ==
            (match Unescape(rest) case None => None case Some(r) => Some(bs + r))
  {
    if bs == [] {
      assert EscapeBytes(bs) + rest == rest;
      match Unescape(rest)
      case None =>
      case Some(r) =>
        assert bs + r == r;
    } else {
      var b := bs[0];
      var t := EscapeBytes(bs) + rest;
      assert t == EscapeByte(b) + (EscapeBytes(bs[1..]) + rest);
      assert t[0] == '%' && t[1] == HexDigit(b / 16) && t[2] == HexDigit(b % 16);
      assert t[3..] == EscapeBytes(bs[1..]) + rest;
      HexRoundTrip(b / 16);
      HexRoundTrip(b % 16);
      assert HexValue(t[1]) * 16 + HexValue(t[2]) == b;
      UnescapeEscaped(bs[1..], rest);
      assert Unescape(t) == Prepend(b, Unescape(t[3..]));
      match Unescape(rest)
      case None =>
      case Some(r) =>
        assert [b] + (bs[1..] + r) == bs + r;
    }
  }

  /**
    Encoding is lossless: decoding the encoded text gives back exactly the
    UTF-8 bytes of the input, so every encoded component consists of
    unreserved characters and well-formed `%HH` triples only.
   */
  lemma {:induction false} EncodeRoundTrip(s: string)
    ensures Unescape(Encode(s)) == Some(Utf8Bytes(s))
  {
    if s != [] {
      var c := s[0];
      EncodeRoundTrip(s[1..]);
      if Unreserved(c) {
        assert Encode(s) == [c] + Encode(s[1..]);
        assert (c as int) < 0x80;
      } else {
        UnescapeEscaped(Utf8(c), Encode(s[1..]));
      }
    }
  }

  /** Encoded text uses no character other than unreserved ones and '%'. */
  lemma {:induction false} EncodeAlphabet(s: string)
    ensures forall i :: 0 <= i < |Encode(s)| ==> Unreserved(Encode(s)[i]) || Encode(s)[i] == '%'
  {
    if s != [] {
      EncodeAlphabet(s[1..]);
      var e := Encode(s);
      forall i | 0 <= i < |e|
        ensures Unreserved(e[i]) || e[i] == '%'
      {
        if i >= |EncodeChar(s[0])| {
          assert e[i] == Encode(s[1..])[i - |EncodeChar(s[0])|];
        }
      }
    }
  }

  /** No encoded text contains a separator of the header, the base string or a query. */
  lemma EncodeHasNoSeparators(s: string)
    ensures '&' !in Encode(s) && ',' !in Encode(s) && '=' !in Encode(s) && '"' !in Encode(s)
  {
    EncodeAlphabet(s);
  }

  lemma {:induction false} EncodeAppend(a: string, b: string)
    ensures Encode(a + b) == Encode(a) + Encode(b)
  {
    if a == [] {
      assert a + b == b;
    } else {
      assert (a + b)[0] == a[0];
      assert (a + b)[1..] == a[1..] + b;
      EncodeAppend(a[1..], b);
    }
  }

  lemma {:induction false} EncodeLength(s: string)
    ensures |Encode(s)| >= |s|
    ensures |Encode(s)| == |s| <==> forall i :: 0 <= i < |s| ==> Unreserved(s[i])
  {
    if s != [] {
      EncodeLength(s[1..]);
      if !Unreserved(s[0]) {
        assert |EncodeChar(s[0])| >= 3;
      }
      assert forall i :: 1 <= i < |s| ==> s[i] == s[1..][i - 1];
    }
  }

  /** Encoding leaves a string unchanged exactly when all its characters are unreserved. */
  lemma {:induction false} EncodeIdentity(s: string)
    ensures Encode(s) == s <==> forall i :: 0 <= i < |s| ==> Unreserved(s[i])
  {
    EncodeLength(s);
    if forall i :: 0 <= i < |s| ==> Unreserved(s[i]) {
      UnreservedUnchanged(s);
    }
  }

  lemma {:induction false} UnreservedUnchanged(s: string)
    requires forall i :: 0 <= i < |s| ==> Unreserved(s[i])
    ensures Encode(s) == s
  {
    if s != [] {
      assert Unreserved(s[0]);
      UnreservedUnchanged(s[1..]);
      assert [s[0]] + s[1..] == s;
    }
  }
}
