/** Go's `url.QueryEscape`, used on the two coordinates of the request: percent-encoding
    (section 2.1 of RFC 3986) of every byte of the UTF-8 form except the unreserved set of
    section 2.3, with a blank written as `+` (the application/x-www-form-urlencoded
    convention). `QueryUnescape`, its inverse, is the partner definition. */
module UrlEscape {
  import opened Wrappers

  type byte = b: int | 0 <= b < 256

  /** UTF-8 encoding of one Unicode scalar value (Go strings hold these bytes). */
  function Utf8Char(c: char): (bs: seq<byte>)
    ensures 1 <= |bs| <= 4
    ensures c as int < 0x80 ==> bs == [c as int]
    ensures c as int >= 0x80 ==> forall i :: 0 <= i < |bs| ==> bs[i] >= 0x80
  {
    var n := c as int;
    if n < 0x80 then [n]
    else if n < 0x800 then [0xC0 + n / 0x40, 0x80 + n % 0x40]
    else if n < 0x1_0000 then [0xE0 + n / 0x1000, 0x80 + (n / 0x40) % 0x40, 0x80 + n % 0x40]
    else [0xF0 + n / 0x4_0000, 0x80 + (n / 0x1000) % 0x40, 0x80 + (n / 0x40) % 0x40, 0x80 + n % 0x40]
  }

  function Utf8(s: string): seq<byte>
  {
    if s == [] then [] else Utf8Char(s[0]) + Utf8(s[1..])
  }

  /** The unreserved characters of section 2.3 of RFC 3986: letters, digits, `-_.~`. */
  predicate UnreservedChar(c: char)
  {
    'a' <= c <= 'z' || 'A' <= c <= 'Z' || '0' <= c <= '9' || c == '-' || c == '_' || c == '.' || c == '~'
  }

  /** The characters an escaped string is made of: the unreserved ones, `+` and `%`
      (the two hexadecimal digits after `%` are unreserved too). */
  predicate EscapedChar(c: char)
  {
    UnreservedChar(c) || c == '+' || c == '%'
  }

  /** The digits Go's `upperhex` table writes: `0-9` and upper-case `A-F`. */
  predicate UpperHex(c: char)
  {
    '0' <= c <= '9' || 'A' <= c <= 'F'
  }

  /** Upper-case hexadecimal digit, as Go's `upperhex` table. */
  function HexDigit(d: int): (c: char)
    requires 0 <= d < 16
    ensures UnreservedChar(c) && UpperHex(c) && IsHex(c) && HexValue(c) == d
  {
    if d < 10 then ('0' as int + d) as char else ('A' as int + d - 10) as char
  }

  predicate IsHex(c: char)
  {
    '0' <= c <= '9' || 'a' <= c <= 'f' || 'A' <= c <= 'F'
  }

  function HexValue(c: char): (d: int)
    requires IsHex(c)
    ensures 0 <= d < 16
  {
    if '0' <= c <= '9' then c as int - '0' as int
    else if 'a' <= c <= 'f' then c as int - 'a' as int + 10
    else c as int - 'A' as int + 10
  }

  /** One byte of input: kept when unreserved, `+` for a blank, `%XX` otherwise. */
  function EscapeByte(b: byte): (e: string)
    ensures 1 <= |e| <= 3
    ensures forall i :: 0 <= i < |e| ==> EscapedChar(e[i])
    ensures e == [b as char] <==> b < 0x80 && UnreservedChar(b as char)
    ensures e == "+" <==> b == 0x20
    ensures !(b < 0x80 && UnreservedChar(b as char)) && b != 0x20 ==>
      |e| == 3 && e[0] == '%' && UpperHex(e[1]) && UpperHex(e[2])
      && HexValue(e[1]) * 16 + HexValue(e[2]) == b
  {
    if b < 0x80 && UnreservedChar(b as char) then [b as char]
    else if b == 0x20 then "+"
    else ['%', HexDigit(b / 16), HexDigit(b % 16)]
  }

  function EscapeBytes(bs: seq<byte>): (e: string)
    ensures forall i :: 0 <= i < |e| ==> EscapedChar(e[i])
  {
    if bs == [] then "" else EscapeByte(bs[0]) + EscapeBytes(bs[1..])
  }

  /** `url.QueryEscape`. No reserved delimiter (`&`, `=`, `,`, `?`, `#`, blank) survives. */
  function QueryEscape(s: string): (e: string)
    ensures forall i :: 0 <= i < |e| ==> EscapedChar(e[i])
    ensures '&' !in e && '=' !in e && ',' !in e && '?' !in e && '#' !in e && ' ' !in e
  {
    EscapeBytes(Utf8(s))
  }

  function Prepend(bs: seq<byte>, r: Option<seq<byte>>): Option<seq<byte>>
  {
    match r
    case None => None
    case Some(rest) => Some(bs + rest)
  }

  /** `url.QueryUnescape`: `%XX` (either case) is one byte, `+` a blank, anything else
      its own UTF-8 bytes; a `%` without two hexadecimal digits is an error. */
  function QueryUnescape(s: string): Option<seq<byte>>
  {
    if s == [] then Some([])
    else if s[0] == '%' then
      if |s| >= 3 && IsHex(s[1]) && IsHex(s[2]) then
        Prepend([HexValue(s[1]) * 16 + HexValue(s[2])], QueryUnescape(s[3..]))
      else
        None
    else if s[0] == '+' then Prepend([0x20], QueryUnescape(s[1..]))
    else Prepend(Utf8Char(s[0]), QueryUnescape(s[1..]))
  }

  lemma {:induction false} UnescapeEscapeByte(b: byte, t: string)
    ensures QueryUnescape(EscapeByte(b) + t) == Prepend([b], QueryUnescape(t))
  {
    var s := EscapeByte(b) + t;
    if b < 0x80 && UnreservedChar(b as char) {
      assert s[0] == b as char && s[1..] == t;
    } else if b == 0x20 {
      assert s[0] == '+' && s[1..] == t;
    } else {
      assert s[0] == '%' && s[1] == HexDigit(b / 16) && s[2] == HexDigit(b % 16) && s[3..] == t;
    }
  }

  /** Unescaping undoes escaping: the escaped form determines the bytes it came from. */
  lemma {:induction false} UnescapeEscapeBytes(bs: seq<byte>)
    ensures QueryUnescape(EscapeBytes(bs)) == Some(bs)
  {
    if bs != [] {
      UnescapeEscapeByte(bs[0], EscapeBytes(bs[1..]));
      UnescapeEscapeBytes(bs[1..]);
      assert [bs[0]] + bs[1..] == bs;
    }
  }

  lemma {:induction false} QueryRoundTrip(s: string)
    ensures QueryUnescape(QueryEscape(s)) == Some(Utf8(s))
  {
    UnescapeEscapeBytes(Utf8(s));
  }

  lemma {:induction false} Utf8Append(a: string, b: string)
    ensures Utf8(a + b) == Utf8(a) + Utf8(b)
  {
    if a == [] {
      assert a + b == b;
    } else {
      assert (a + b)[0] == a[0] && (a + b)[1..] == a[1..] + b;
      Utf8Append(a[1..], b);
    }
  }

  lemma {:induction false} EscapeBytesAppend(a: seq<byte>, b: seq<byte>)
    ensures EscapeBytes(a + b) == EscapeBytes(a) + EscapeBytes(b)
  {
    if a == [] {
      assert a + b == b;
    } else {
      assert (a + b)[0] == a[0] && (a + b)[1..] == a[1..] + b;
      EscapeBytesAppend(a[1..], b);
    }
  }

  lemma {:induction false} CommaEscaped()
    ensures Utf8([',']) == [0x2C] && EscapeBytes([0x2C]) == "%2C"
  {
    assert EscapeBytes([0x2C]) == EscapeByte(0x2C) + EscapeBytes([]);
  }

  /** Escaping works character by character, so the comma between latitude and
      longitude always travels as `%2C`. */
  lemma {:induction false} EscapeAroundComma(lat: string, lon: string)
    ensures QueryEscape(lat + [','] + lon) == QueryEscape(lat) + "%2C" + QueryEscape(lon)
  {
    var a, c := Utf8(lat), Utf8(lon);
    CommaEscaped();
    Utf8Append(lat + [','], lon);
    Utf8Append(lat, [',']);
    assert Utf8(lat + [','] + lon) == a + [0x2C] + c;
    EscapeBytesAppend(a + [0x2C], c);
    EscapeBytesAppend(a, [0x2C]);
  }

  /** A string of unreserved characters (digits, `.` and `-` included) is left as it is. */
  lemma {:induction false} UnreservedUnchanged(s: string)
    requires forall i :: 0 <= i < |s| ==> UnreservedChar(s[i])
    ensures QueryEscape(s) == s
  {
    if s != [] {
      UnreservedUnchanged(s[1..]);
      assert Utf8(s) == [s[0] as int] + Utf8(s[1..]);
      assert Utf8(s)[1..] == Utf8(s[1..]);
      assert s == [s[0]] + s[1..];
    }
  }
}
