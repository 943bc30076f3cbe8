/** `encodeURIComponent` and `decodeURIComponent` (sections 19.2.6.4-19.2.6.5 of
    ECMA-262): percent-encoding per section 2.1 of RFC 3986 of the UTF-8 octets
    (RFC 3629) of every character outside the unescaped set. Decoding fails
    (`None`, JavaScript's URIError) on a malformed escape or an invalid UTF-8
    sequence. */
module UriComponent {
  import opened Strings

  /** The characters encodeURIComponent leaves alone: letters, digits and
      - _ . ! ~ * ' ( ) */
  predicate Unescaped(c: char) {
    ('A' <= c <= 'Z') || ('a' <= c <= 'z') || ('0' <= c <= '9') ||
    c == '-' || c == '_' || c == '.' || c == '!' || c == '~' ||
    c == '*' || c == '\'' || c == '(' || c == ')'
  }

  /** Upper-case hexadecimal digit of a value below 16. */
  function HexDigit(d: int): (c: char)
    requires 0 <= d < 16
    ensures ('0' <= c <= '9') || ('A' <= c <= 'F')
  {
    if d < 10 then ('0' as int + d) as char else ('A' as int + d - 10) as char
  }

  /** The value of a hexadecimal digit of either case. */
  function HexValue(c: char): (r: Option<int>)
    ensures r.Some? ==> 0 <= r.value < 16
  {
    if '0' <= c <= '9' then Some(c as int - '0' as int)
    else if 'A' <= c <= 'F' then Some(c as int - 'A' as int + 10)
    else if 'a' <= c <= 'f' then Some(c as int - 'a' as int + 10)
    else None
  }

  lemma HexValueOfDigit(d: int)
    requires 0 <= d < 16
    ensures HexValue(HexDigit(d)) == Some(d)
  {
  }

  /** UTF-8 octets of a Unicode scalar value (section 3 of RFC 3629). */
  function Utf8(c: char): (bs: seq<int>)
    ensures 1 <= |bs| <= 4
    ensures forall i :: 0 <= i < |bs| ==> 0 <= bs[i] < 256
  {
    var n := c as int;
    if n < 0x80 then [n]
    else if n < 0x800 then [0xC0 + n / 64, 0x80 + n % 64]
    else if n < 0x10000 then [0xE0 + n / 4096, 0x80 + (n / 64) % 64, 0x80 + n % 64]
    else [0xF0 + n / 262144, 0x80 + (n / 4096) % 64, 0x80 + (n / 64) % 64, 0x80 + n % 64]
  }

  /** "%XY" for one octet. */
  function Escape(b: int): (e: string)
    requires 0 <= b < 256
    ensures |e| == 3 && e[0] == '%'
  {
    ['%', HexDigit(b / 16), HexDigit(b % 16)]
  }

  function EscapeAll(bs: seq<int>): (e: string)
    requires forall i :: 0 <= i < |bs| ==> 0 <= bs[i] < 256
    ensures |e| == 3 * |bs|
  {
    if |bs| == 0 then "" else Escape(bs[0]) + EscapeAll(bs[1..])
  }

  function EncodeChar(c: char): (e: string)
    ensures |e| >= 1
  {
    if Unescaped(c) then [c] else EscapeAll(Utf8(c))
  }

  /** `encodeURIComponent(s)` */
  function Encode(s: string): (e: string)
    ensures |e| >= |s|
  {
    if |s| == 0 then "" else EncodeChar(s[0]) + Encode(s[1..])
  }

  /** The octet written by a well-formed escape at position `i` of `s`. */
  function EscapedByte(s: string, i: nat): (r: Option<int>)
    ensures r.Some? ==> 0 <= r.value < 256 && i + 3 <= |s| && s[i] == '%'
  {
    if i + 3 <= |s| && s[i] == '%' then
      match (HexValue(s[i + 1]), HexValue(s[i + 2]))
        case (Some(h), Some(l)) => Some(h * 16 + l)
        case _ => None
    else None
  }

  /** The low six bits of the continuation octet escaped at octet position `j`. */
  function Continuation(s: string, j: nat): (r: Option<int>)
    ensures r.Some? ==> 0 <= r.value < 64
  {
    match EscapedByte(s, 3 * j)
      case Some(b) => if 0x80 <= b < 0xC0 then Some(b - 0x80) else None
      case None => None
  }

  /** How many octets a leading octet announces; 0 when it cannot lead
      (a continuation octet, or five or more leading one bits). */
  function SequenceLength(b: int): nat {
    if b < 0x80 then 1
    else if 0xC0 <= b < 0xE0 then 2
    else if 0xE0 <= b < 0xF0 then 3
    else if 0xF0 <= b < 0xF8 then 4
    else 0
  }

  /** Decodes the escaped UTF-8 sequence at the start of `s` (which starts with
      '%'): the character and how many characters of `s` it took. Overlong
      forms, surrogates and values above U+10FFFF are rejected. */
  function DecodeEscape(s: string): (r: Option<(char, nat)>)
    requires |s| > 0 && s[0] == '%'
    ensures r.Some? ==> 3 <= r.value.1 <= |s|
  {
    match EscapedByte(s, 0)
      case None => None
      case Some(b) =>
        var n := SequenceLength(b);
        if n == 1 then Some((b as char, 3))
        else if n == 0 || |s| < 3 * n then None
        else if n == 2 then
          match Continuation(s, 1)
            case None => None
            case Some(c1) =>
              var cp := (b - 0xC0) * 64 + c1;
              if cp < 0x80 then None else Some((cp as char, 6))
        else if n == 3 then
          match (Continuation(s, 1), Continuation(s, 2))
            case (Some(c1), Some(c2)) =>
              var cp := (b - 0xE0) * 4096 + c1 * 64 + c2;
              if cp < 0x800 || (0xD800 <= cp < 0xE000) then None else Some((cp as char, 9))
            case _ => None
        else
          match (Continuation(s, 1), Continuation(s, 2), Continuation(s, 3))
            case (Some(c1), Some(c2), Some(c3)) =>
              var cp := (b - 0xF0) * 262144 + c1 * 4096 + c2 * 64 + c3;
              if cp < 0x10000 || cp > 0x10FFFF then None else Some((cp as char, 12))
            case _ => None
  }

  /** `decodeURIComponent(s)`; `None` where JavaScript throws URIError. */
  function Decode(s: string): (r: Option<string>)
    ensures r.Some? ==> |r.value| <= |s|
    decreases |s|
  {
    if |s| == 0 then Some("")
    else if s[0] != '%' then
      match Decode(s[1..])
        case None => None
        case Some(t) => Some([s[0]] + t)
    else
      match DecodeEscape(s)
        case None => None
        case Some((c, k)) =>
          match Decode(s[k..])
            case None => None
            case Some(t) => Some([c] + t)
  }

  /** A '%' that does not start a well-formed escape makes the whole
      decoding throw, wherever it stands. */
  lemma {:induction false} DecodeMalformed(p: string, rest: string)
    requires '%' !in p
    requires DecodeEscape("%" + rest).None?
    ensures Decode(p + "%" + rest) == None
    decreases |p|
  {
    var s := p + "%" + rest;
    if |p| == 0 {
      assert s == "%" + rest;
    } else {
      assert s[0] == p[0] != '%';
      assert s[1..] == p[1..] + "%" + rest;
      DecodeMalformed(p[1..], rest);
    }
  }

  /** A lone '%' is malformed. */
  lemma LonePercent()
    ensures Decode("%") == None
  {
    assert "%" == "" + "%" + "";
    DecodeMalformed("", "");
  }

  /** Text without '%' decodes to itself. */
  lemma {:induction false} DecodePlain(s: string)
    requires '%' !in s
    ensures Decode(s) == Some(s)
    decreases |s|
  {
    if |s| > 0 {
      assert s[0] != '%';
      assert forall i :: 0 <= i < |s[1..]| ==> s[1..][i] == s[i + 1];
      DecodePlain(s[1..]);
      assert [s[0]] + s[1..] == s;
    }
  }

  /** The escape of octet `j` sits at position 3j of the escaped sequence. */
  lemma {:induction false} EscapeAllAt(bs: seq<int>, rest: string, j: nat)
    requires forall i :: 0 <= i < |bs| ==> 0 <= bs[i] < 256
    requires j < |bs|
    ensures EscapedByte(EscapeAll(bs) + rest, 3 * j) == Some(bs[j])
    decreases j
  {
    var s := EscapeAll(bs) + rest;
    if j == 0 {
      var b := bs[0];
      HexValueOfDigit(b / 16);
      HexValueOfDigit(b % 16);
      assert s[0] == '%' && s[1] == HexDigit(b / 16) && s[2] == HexDigit(b % 16);
    } else {
      EscapeAllAt(bs[1..], rest, j - 1);
      assert s[3..] == EscapeAll(bs[1..]) + rest;
      var t := EscapeAll(bs[1..]) + rest;
      assert s[3 * j..3 * j + 3] == t[3 * (j - 1)..3 * (j - 1) + 3];
    }
  }

  /** A two-octet sequence decodes to the character it encodes. */
  lemma DecodeEscapeTwo(c: char, rest: string)
    requires 0x80 <= c as int < 0x800
    ensures DecodeEscape(EscapeAll(Utf8(c)) + rest) == Some((c, 6))
  {
    var n := c as int;
    var bs := Utf8(c);
    EscapeAllAt(bs, rest, 0);
    EscapeAllAt(bs, rest, 1);
    assert n == (n / 64) * 64 + n % 64;
  }

  /** A three-octet sequence decodes to the character it encodes. */
  lemma DecodeEscapeThree(c: char, rest: string)
    requires 0x800 <= c as int < 0x10000
    ensures DecodeEscape(EscapeAll(Utf8(c)) + rest) == Some((c, 9))
  {
    var n := c as int;
    var bs := Utf8(c);
    var s := EscapeAll(bs) + rest;
    EscapeAllAt(bs, rest, 0);
    EscapeAllAt(bs, rest, 1);
    EscapeAllAt(bs, rest, 2);
    Utf8ThreeValue(n);
    assert SequenceLength(bs[0]) == 3;
    assert Continuation(s, 1) == Some((n / 64) % 64);
    assert Continuation(s, 2) == Some(n % 64);
  }

  /** The arithmetic of a three-octet sequence: the octets recombine to `n`. */
  lemma Utf8ThreeValue(n: int)
    requires 0x800 <= n < 0x10000
    ensures 0xE0 <= 0xE0 + n / 4096 < 0xF0
    ensures (n / 4096) * 4096 + ((n / 64) % 64) * 64 + n % 64 == n
  {
    assert n / 64 == (n / 4096) * 64 + (n / 64) % 64;
    assert n == (n / 64) * 64 + n % 64;
  }

  /** The arithmetic of a four-octet sequence: the octets recombine to `n`. */
  lemma Utf8FourValue(n: int)
    requires 0x10000 <= n <= 0x10FFFF
    ensures 0xF0 <= 0xF0 + n / 262144 < 0xF8
    ensures (n / 262144) * 262144 + ((n / 4096) % 64) * 4096 + ((n / 64) % 64) * 64 + n % 64 == n
  {
    assert n / 4096 == (n / 262144) * 64 + (n / 4096) % 64;
    assert n / 64 == (n / 4096) * 64 + (n / 64) % 64;
    assert n == (n / 64) * 64 + n % 64;
  }

  /** A four-octet sequence decodes to the character it encodes. */
  lemma DecodeEscapeFour(c: char, rest: string)
    requires 0x10000 <= c as int
    ensures DecodeEscape(EscapeAll(Utf8(c)) + rest) == Some((c, 12))
  {
    var n := c as int;
    var bs := Utf8(c);
    var s := EscapeAll(bs) + rest;
    EscapeAllAt(bs, rest, 0);
    EscapeAllAt(bs, rest, 1);
    EscapeAllAt(bs, rest, 2);
    EscapeAllAt(bs, rest, 3);
    Utf8FourValue(n);
    assert SequenceLength(bs[0]) == 4;
    assert Continuation(s, 1) == Some((n / 4096) % 64);
    assert Continuation(s, 2) == Some((n / 64) % 64);
    assert Continuation(s, 3) == Some(n % 64);
  }

  /** One escaped character is decoded back at the head of any text. */
  lemma DecodeEscapeOfChar(c: char, rest: string)
    requires !Unescaped(c)
    ensures DecodeEscape(EscapeAll(Utf8(c)) + rest) == Some((c, 3 * |Utf8(c)|))
  {
    var n := c as int;
    if n < 0x80 {
      EscapeAllAt(Utf8(c), rest, 0);
    } else if n < 0x800 {
      DecodeEscapeTwo(c, rest);
    } else if n < 0x10000 {
      DecodeEscapeThree(c, rest);
    } else {
      DecodeEscapeFour(c, rest);
    }
  }

  /** Decoding an encoded character followed by anything decodes the rest. */
  lemma DecodeEncodeChar(c: char, rest: string)
    ensures Decode(EncodeChar(c) + rest) ==
      match Decode(rest) case None => None case Some(t) => Some([c] + t)
  {
    var s := EncodeChar(c) + rest;
    if Unescaped(c) {
      assert s[1..] == rest;
    } else {
      DecodeEscapeOfChar(c, rest);
      assert s[3 * |Utf8(c)|..] == rest;
    }
  }

  /** `decodeURIComponent(encodeURIComponent(s)) == s` */
  lemma {:induction false} DecodeEncode(s: string)
    ensures Decode(Encode(s)) == Some(s)
    decreases |s|
  {
    if |s| > 0 {
      DecodeEncode(s[1..]);
      DecodeEncodeChar(s[0], Encode(s[1..]));
      assert [s[0]] + s[1..] == s;
    }
  }

  /** The characters encodeURIComponent can output. */
  predicate EncodedChar(c: char) {
    Unescaped(c) || c == '%' || ('A' <= c <= 'F')
  }

  lemma {:induction false} EscapeAllChars(bs: seq<int>)
    requires forall i :: 0 <= i < |bs| ==> 0 <= bs[i] < 256
    ensures forall i :: 0 <= i < |EscapeAll(bs)| ==> EncodedChar(EscapeAll(bs)[i])
  {
    if |bs| > 0 {
      EscapeAllChars(bs[1..]);
    }
  }

  /** Every character of an encoding is unescaped, '%' or a hex digit. */
  lemma {:induction false} EncodeChars(s: string)
    ensures forall i :: 0 <= i < |Encode(s)| ==> EncodedChar(Encode(s)[i])
    decreases |s|
  {
    if |s| > 0 {
      EncodeChars(s[1..]);
      var h := EncodeChar(s[0]);
      var t := Encode(s[1..]);
      assert Encode(s) == h + t;
      if !Unescaped(s[0]) {
        EscapeAllChars(Utf8(s[0]));
      }
      assert forall i :: 0 <= i < |h| ==> EncodedChar(h[i]);
    }
  }

  /** In particular '&', '=', ',', ';' and ' ' never occur in an encoding, so
      an encoded value can sit between such delimiters. */
  lemma EncodeNoDelimiters(s: string)
    ensures forall i :: 0 <= i < |Encode(s)| ==>
      Encode(s)[i] != '&' && Encode(s)[i] != '=' && Encode(s)[i] != ',' &&
      Encode(s)[i] != ';' && Encode(s)[i] != ' '
  {
    EncodeChars(s);
  }

  /** The encoding of a non-empty text is non-empty. */
  lemma EncodeNonEmpty(s: string)
    requires |s| > 0
    ensures |Encode(s)| > 0
  {
  }
}
