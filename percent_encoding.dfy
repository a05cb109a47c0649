/**
 * `urllib.parse.quote(s, safe='')`: percent-encoding as in section 2.1 of
 * RFC 3986. The string is encoded as UTF-8 and every byte outside the
 * unreserved set of section 2.3 (ALPHA, DIGIT, '-', '.', '_', '~') becomes
 * '%' followed by two upper-case hexadecimal digits. With `safe=''` the
 * slash is escaped too.
 */
module PercentEncoding {
  import opened Values

  /** The UTF-8 encoding of one Unicode scalar value. */
  function Utf8(c: char): (bs: seq<Byte>)
    ensures 1 <= |bs| <= 4
    ensures (c as int < 0x80) == (|bs| == 1)
    ensures |bs| == 1 ==> bs[0] == c as int
  {
    var n := c as int;
    if n < 0x80 then [n]
    else if n < 0x800 then [0xC0 + n / 64, 0x80 + n % 64]
    else if n < 0x10000 then [0xE0 + n / 4096, 0x80 + (n / 64) % 64, 0x80 + n % 64]
    else [0xF0 + n / 262144, 0x80 + (n / 4096) % 64, 0x80 + (n / 64) % 64, 0x80 + n % 64]
  }

  /** `s.encode("utf-8")`. */
  function Utf8Encode(s: string): seq<Byte> {
    if s == [] then [] else Utf8(s[0]) + Utf8Encode(s[1..])
  }

  /** The unreserved characters of section 2.3 of RFC 3986, as bytes. */
  predicate Unreserved(b: int) {
    || (65 <= b <= 90) || (97 <= b <= 122) || (48 <= b <= 57)
    || b == 45 || b == 46 || b == 95 || b == 126
  }

  const HexDigits: string := "0123456789ABCDEF"

  /** The byte's escape: itself when unreserved, otherwise "%XX". */
  function EscapeByte(b: Byte): (e: string)
    ensures Unreserved(b) ==> e == [b as char]
    ensures !Unreserved(b) ==> |e| == 3 && e[0] == '%'
  {
    if Unreserved(b) then [b as char]
    else ['%', HexDigits[b / 16], HexDigits[b % 16]]
  }

  function QuoteBytes(bs: seq<Byte>): string {
    if bs == [] then [] else EscapeByte(bs[0]) + QuoteBytes(bs[1..])
  }

  /** `quote(s, safe='')`. */
  function Quote(s: string): string {
    QuoteBytes(Utf8Encode(s))
  }

  /** A character that may appear in a percent-encoded string. */
  predicate EncodedChar(c: char) {
    Unreserved(c as int) || c == '%'
  }

  /** The value of a hexadecimal digit, either case. */
  function HexValue(c: char): Option<nat> {
    if '0' <= c <= '9' then Some(c as int - '0' as int)
    else if 'A' <= c <= 'F' then Some(c as int - 'A' as int + 10)
    else if 'a' <= c <= 'f' then Some(c as int - 'a' as int + 10)
    else None
  }

  /**
   * Percent-decoding, the partner of `QuoteBytes`: "%XX" gives the byte XX,
   * an unreserved character gives its own byte, anything else is malformed.
   */
  function Unquote(t: string): Option<seq<Byte>> {
    if t == [] then Some([])
    else if t[0] == '%' then
      if |t| < 3 then None
      else match (HexValue(t[1]), HexValue(t[2]))
        case (Some(hi), Some(lo)) =>
          (match Unquote(t[3..])
           case Some(rest) => Some([hi * 16 + lo] + rest)
           case None => None)
        case _ => None
    else if Unreserved(t[0] as int) then
      (match Unquote(t[1..])
       case Some(rest) => Some([t[0] as int] + rest)
       case None => None)
    else None
  }

  lemma HexDigitValue(n: nat)
    requires n < 16
    ensures HexValue(HexDigits[n]) == Some(n)
  {
  }

  /** Decoding one escape and then the rest is decoding the rest. */
  lemma {:induction false} UnquoteEscape(b: Byte, t: string)
    ensures Unquote(EscapeByte(b) + t) ==
      match Unquote(t) case Some(rest) => Some([b] + rest) case None => None
  {
    var e := EscapeByte(b);
    if Unreserved(b) {
      assert (e + t)[1..] == t;
    } else {
      HexDigitValue(b / 16);
      HexDigitValue(b % 16);
      assert (e + t)[3..] == t;
    }
  }

  /** Percent-decoding undoes percent-encoding of any byte string. */
  lemma {:induction false} UnquoteQuoteBytes(bs: seq<Byte>)
    ensures Unquote(QuoteBytes(bs)) == Some(bs)
  {
    if bs != [] {
      UnquoteQuoteBytes(bs[1..]);
      UnquoteEscape(bs[0], QuoteBytes(bs[1..]));
      assert [bs[0]] + bs[1..] == bs;
    }
  }

  /** Percent-decoding `quote(s, safe='')` gives back the UTF-8 bytes of `s`. */
  lemma QuoteRoundTrip(s: string)
    ensures Unquote(Quote(s)) == Some(Utf8Encode(s))
  {
    UnquoteQuoteBytes(Utf8Encode(s));
  }

  predicate AllEncoded(s: string) {
    forall i :: 0 <= i < |s| ==> EncodedChar(s[i])
  }

  lemma EscapeByteEncoded(b: Byte)
    ensures AllEncoded(EscapeByte(b))
  {
    if !Unreserved(b) {
      var e := EscapeByte(b);
      assert e[1] == HexDigits[b / 16] && e[2] == HexDigits[b % 16];
      assert forall d :: 0 <= d < 16 ==> EncodedChar(HexDigits[d]);
    }
  }

  lemma AllEncodedAppend(a: string, b: string)
    requires AllEncoded(a) && AllEncoded(b)
    ensures AllEncoded(a + b)
  {
    forall i | 0 <= i < |a + b| ensures EncodedChar((a + b)[i]) {
      if i >= |a| {
        assert (a + b)[i] == b[i - |a|];
      }
    }
  }

  /** Every character of an encoding is unreserved or '%'; in particular no '/'. */
  lemma {:induction false} QuoteBytesAlphabet(bs: seq<Byte>)
    ensures AllEncoded(QuoteBytes(bs))
    ensures '/' !in QuoteBytes(bs)
  {
    var q := QuoteBytes(bs);
    if bs != [] {
      QuoteBytesAlphabet(bs[1..]);
      EscapeByteEncoded(bs[0]);
      AllEncodedAppend(EscapeByte(bs[0]), QuoteBytes(bs[1..]));
    }
    forall i | 0 <= i < |q| ensures q[i] != '/' {
      assert EncodedChar(q[i]);
    }
  }

  /** A string made only of unreserved ASCII characters is left as it is. */
  lemma {:induction false} QuoteUnreservedIdentity(s: string)
    requires forall i :: 0 <= i < |s| ==> Unreserved(s[i] as int)
    ensures Quote(s) == s
  {
    if s != [] {
      QuoteUnreservedIdentity(s[1..]);
      assert Utf8Encode(s) == [s[0] as int] + Utf8Encode(s[1..]);
      assert [s[0]] + s[1..] == s;
    }
  }
}
