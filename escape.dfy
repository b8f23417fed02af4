/**
 * Percent-encoding of query values, standing for Go's `http.URLEscape`
 * (whose source is not part of this model). The encoding follows
 * section 2.1 of RFC 3986 (an octet becomes "%" HEXDIG HEXDIG, upper-case
 * hexadecimal) with the unreserved characters of section 2.3 of RFC 3986
 * (ALPHA / DIGIT / "-" / "." / "_" / "~") left as they are.
 */
module UrlEscape {
  import opened Optional
  import opened ByteStrings

  /** The unreserved set of section 2.3 of RFC 3986. */
  predicate Unreserved(b: byte) {
    ('A' <= b <= 'Z') || ('a' <= b <= 'z') || ('0' <= b <= '9') ||
    b == '-' || b == '.' || b == '_' || b == '~'
  }

  /** The upper-case hexadecimal digit for a nibble. */
  function HexDigit(d: int): (c: byte)
    requires 0 <= d < 16
    ensures Unreserved(c)
  {
    if d < 10 then ('0' as int + d) as char else ('A' as int + d - 10) as char
  }

  /** The value of a hexadecimal digit of either case (HEXDIG in RFC 3986). */
  function HexValue(c: byte): (r: Option<int>)
    ensures r.Some? ==> 0 <= r.value < 16
  {
    if '0' <= c <= '9' then Some(c as int - '0' as int)
    else if 'A' <= c <= 'F' then Some(c as int - 'A' as int + 10)
    else if 'a' <= c <= 'f' then Some(c as int - 'a' as int + 10)
    else None
  }

  /** An upper-case hexadecimal digit, as section 2.1 of RFC 3986 asks producers to use. */
  predicate UpperHex(c: byte) {
    ('0' <= c <= '9') || ('A' <= c <= 'F')
  }

  /**
   * One octet: an unreserved one stands for itself; any other becomes '%'
   * and the upper-case hexadecimal digits of its high and low nibble.
   */
  function EscapeByte(b: byte): (r: Bytes)
    ensures Unreserved(b) ==> r == [b]
    ensures !Unreserved(b) ==>
      |r| == 3 && r[0] == '%' && UpperHex(r[1]) && UpperHex(r[2]) &&
      HexValue(r[1]) == Some(b as int / 16) && HexValue(r[2]) == Some(b as int % 16)
  {
    if Unreserved(b) then [b]
    else ['%', HexDigit(b as int / 16), HexDigit(b as int % 16)]
  }

  /**
   * The percent-encoded form of a byte string. Only unreserved characters
   * and the escape introducer '%' can appear in it, whatever the input.
   */
  function Escape(s: Bytes): (r: Bytes)
    ensures |r| >= |s|
    ensures forall i | 0 <= i < |r| :: Unreserved(r[i]) || r[i] == '%'
  {
    if s == [] then [] else EscapeByte(s[0]) + Escape(s[1..])
  }

  /**
   * Well-formed percent-encoded text: unreserved characters and
   * "%" HEXDIG HEXDIG triplets, nothing else.
   */
  predicate PercentEncoded(r: Bytes)
    decreases |r|
  {
    if r == [] then true
    else if Unreserved(r[0]) then PercentEncoded(r[1..])
    else r[0] == '%' && |r| >= 3 && HexValue(r[1]).Some? && HexValue(r[2]).Some? &&
         PercentEncoded(r[3..])
  }

  /**
   * Percent-decoding: a "%" HEXDIG HEXDIG triplet becomes its octet, every
   * other byte stands for itself; a '%' not followed by two hexadecimal
   * digits makes the text malformed.
   */
  function Unescape(s: Bytes): Option<Bytes>
    decreases |s|
  {
    if s == [] then Some([])
    else if s[0] != '%' then
      match Unescape(s[1..])
      case Some(t) => Some([s[0]] + t)
      case None => None
    else if |s| < 3 then None
    else
      match (HexValue(s[1]), HexValue(s[2]))
      case (Some(h), Some(l)) =>
        (match Unescape(s[3..])
         case Some(t) => Some([(h * 16 + l) as char] + t)
         case None => None)
      case _ => None
  }

  /** A byte outside the unreserved set other than '%' never appears raw in an escaped value. */
  lemma EscapeHidesReserved(s: Bytes, b: byte)
    requires !Unreserved(b) && b != '%'
    ensures b !in Escape(s)
  {
  }

  /** Escaping produces well-formed percent-encoded text. */
  lemma {:induction false} EscapeIsPercentEncoded(s: Bytes)
    ensures PercentEncoded(Escape(s))
  {
    if s != [] {
      var e, rest := EscapeByte(s[0]), Escape(s[1..]);
      EscapeIsPercentEncoded(s[1..]);
      assert Escape(s) == e + rest;
      if Unreserved(s[0]) {
        assert (e + rest)[1..] == rest;
      } else {
        assert (e + rest)[3..] == rest;
      }
    }
  }

  /** Decoding an escaped value recovers the original bytes, binary data included. */
  lemma {:induction false} UnescapeEscape(s: Bytes)
    ensures Unescape(Escape(s)) == Some(s)
  {
    if s != [] {
      var b, e, rest := s[0], EscapeByte(s[0]), Escape(s[1..]);
      UnescapeEscape(s[1..]);
      assert Escape(s) == e + rest;
      if Unreserved(b) {
        assert (e + rest)[1..] == rest;
      } else {
        var h, l := b as int / 16, b as int % 16;
        assert (e + rest)[3..] == rest;
        assert HexValue(HexDigit(h)) == Some(h);
        assert HexValue(HexDigit(l)) == Some(l);
        assert (h * 16 + l) as char == b;
      }
      assert [b] + s[1..] == s;
    }
  }

  /** Text without '%' decodes to itself. */
  lemma {:induction false} UnescapePlain(s: Bytes)
    requires '%' !in s
    ensures Unescape(s) == Some(s)
  {
    if s != [] {
      UnescapePlain(s[1..]);
      assert [s[0]] + s[1..] == s;
    }
  }

  /** Text made only of unreserved characters (a decimal port, "started") is left as it is. */
  lemma {:induction false} EscapeUnreserved(s: Bytes)
    requires forall i | 0 <= i < |s| :: Unreserved(s[i])
    ensures Escape(s) == s
  {
    if s != [] {
      EscapeUnreserved(s[1..]);
      assert [s[0]] + s[1..] == s;
    }
  }
}
