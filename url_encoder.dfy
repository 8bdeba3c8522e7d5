/** `java.net.URLEncoder.encode(s, "UTF-8")`: the
    application/x-www-form-urlencoded serialisation of section 5.2 of the
    WHATWG URL Standard. ASCII letters, digits and `-_.*` are kept, a space
    becomes `+`, and every other character is replaced by `%XX` for each byte
    of its UTF-8 form (upper-case hexadecimal). The expanders then apply
    `replace("+", "_")`, which `Canonical` below combines with it. */
module UrlEncoder {
  import opened Jdk

  type byte = x: int | 0 <= x < 256

  const Utf8Charset: string := "UTF-8"

  /** The characters `URLEncoder` leaves unchanged. */
  predicate Unreserved(c: char)
  {
    ('a' <= c <= 'z') || ('A' <= c <= 'Z') || ('0' <= c <= '9') || c == '-' || c == '_' || c == '.' || c == '*'
  }

  /** The UTF-8 form of one Unicode scalar value. */
  function Utf8(c: char): (r: seq<byte>)
    ensures 1 <= |r| <= 4
    ensures (c as int < 0x80) <==> (|r| == 1)
    ensures c as int < 0x80 ==> r == [c as int]
    ensures c as int >= 0x80 ==> forall i :: 0 <= i < |r| ==> r[i] >= 0x80
  {
    var n := c as int;
    if n < 0x80 then [n]
    else if n < 0x800 then [0xC0 + n / 64, 0x80 + n % 64]
    else if n < 0x1_0000 then [0xE0 + n / 4096, 0x80 + (n / 64) % 64, 0x80 + n % 64]
    else [0xF0 + n / 262144, 0x80 + (n / 4096) % 64, 0x80 + (n / 64) % 64, 0x80 + n % 64]
  }

  /** The UTF-8 form of a string. */
  function Utf8String(s: string): seq<byte>
    decreases |s|
  {
    if |s| == 0 then [] else Utf8(s[0]) + Utf8String(s[1..])
  }

  /** The upper-case hexadecimal digit of `d`, as `Character.forDigit`
      followed by `Character.toUpperCase` gives it. */
  function HexDigit(d: int): (c: char)
    requires 0 <= d < 16
  {
    if d < 10 then ('0' as int + d) as char else ('A' as int + d - 10) as char
  }

  predicate IsHexDigit(c: char)
  {
    ('0' <= c <= '9') || ('A' <= c <= 'F')
  }

  function HexValue(c: char): (d: int)
    requires IsHexDigit(c)
    ensures 0 <= d < 16
  {
    if c <= '9' then c as int - '0' as int else c as int - 'A' as int + 10
  }

  /** The form encoding of one byte of the UTF-8 text. */
  function EncodeByte(b: byte): string
  {
    if b < 0x80 && Unreserved(b as char) then [b as char]
    else if b == 0x20 then "+"
    else ['%', HexDigit(b / 16), HexDigit(b % 16)]
  }

  function EncodeBytes(bs: seq<byte>): string
    decreases |bs|
  {
    if |bs| == 0 then "" else EncodeByte(bs[0]) + EncodeBytes(bs[1..])
  }

  /** `URLEncoder.encode(s, "UTF-8")`. */
  function FormEncode(s: string): string
  {
    EncodeBytes(Utf8String(s))
  }

  /** `URLEncoder.encode(s, charset)` on a platform supporting `charsets`:
      `UnsupportedEncodingException` (whose message is the charset name) when
      the charset is missing. Only `"UTF-8"` is ever requested here. */
  function Encode(s: string, charset: string, charsets: set<string>): (r: Outcome<string>)
    requires charset == Utf8Charset
    ensures r.Ok? <==> charset in charsets
    ensures r.Ok? ==> r.value == FormEncode(s)
    ensures r.Throw? ==> r.exc == Exc(UnsupportedEncodingException, charset, None)
  {
    if charset in charsets then Ok(FormEncode(s))
    else Throw(Exc(UnsupportedEncodingException, charset, None))
  }

  /** `s.replace("+", "_")`. */
  function ReplacePlus(s: string): (r: string)
    ensures |r| == |s|
    ensures forall i :: 0 <= i < |s| ==> r[i] == (if s[i] == '+' then '_' else s[i])
    decreases |s|
  {
    if |s| == 0 then "" else [if s[0] == '+' then '_' else s[0]] + ReplacePlus(s[1..])
  }

  /** The title encoding all expanders apply before building an article link:
      form-encode, then `+` becomes `_`. */
  function Canonical(s: string): string
  {
    ReplacePlus(FormEncode(s))
  }

  // ---------------------------------------------------------------------------
  // The same encoding, character by character

  /** What one title character becomes in `Canonical`: itself when
      unreserved, `_` for a space, the `%XX` escapes of its UTF-8 bytes
      otherwise. */
  function CanonicalChar(c: char): string
  {
    if Unreserved(c) then [c]
    else if c == ' ' then "_"
    else EncodeBytes(Utf8(c))
  }

  function CanonicalChars(s: string): string
    decreases |s|
  {
    if |s| == 0 then "" else CanonicalChar(s[0]) + CanonicalChars(s[1..])
  }

  lemma {:induction false} EncodeBytesAppend(a: seq<byte>, b: seq<byte>)
    ensures EncodeBytes(a + b) == EncodeBytes(a) + EncodeBytes(b)
    decreases |a|
  {
    if |a| > 0 {
      assert (a + b)[1..] == a[1..] + b;
      EncodeBytesAppend(a[1..], b);
    } else {
      assert a + b == b;
    }
  }

  lemma {:induction false} ReplacePlusAppend(a: string, b: string)
    ensures ReplacePlus(a + b) == ReplacePlus(a) + ReplacePlus(b)
  {
  }

  /** Bytes of 0x80 and above are always escaped. */
  lemma HighBytesEscaped(bs: seq<byte>)
    requires forall i :: 0 <= i < |bs| ==> bs[i] >= 0x80
    ensures forall i :: 0 <= i < |EncodeBytes(bs)| ==> EncodeBytes(bs)[i] != '+'
    decreases |bs|
  {
    if |bs| > 0 {
      HighBytesEscaped(bs[1..]);
    }
  }

  lemma CanonicalCharIsReplacePlus(c: char)
    ensures CanonicalChar(c) == ReplacePlus(EncodeBytes(Utf8(c)))
  {
    var bs := Utf8(c);
    if c as int < 0x80 {
      assert bs == [c as int];
      assert EncodeBytes(bs) == EncodeByte(c as int) + EncodeBytes([]);
      assert (c as int) as char == c;
    } else {
      HighBytesEscaped(bs);
      var e := EncodeBytes(bs);
      assert ReplacePlus(e) == e;
      assert !Unreserved(c) && c != ' ';
    }
  }

  /** `Canonical` works character by character, as `URLEncoder` does. */
  lemma {:induction false} CanonicalByChar(s: string)
    ensures Canonical(s) == CanonicalChars(s)
    decreases |s|
  {
    if |s| > 0 {
      CanonicalByChar(s[1..]);
      EncodeBytesAppend(Utf8(s[0]), Utf8String(s[1..]));
      ReplacePlusAppend(EncodeBytes(Utf8(s[0])), EncodeBytes(Utf8String(s[1..])));
      CanonicalCharIsReplacePlus(s[0]);
    }
  }

  // ---------------------------------------------------------------------------
  // Properties of the title encoding

  /** Every character the form encoding produces is unreserved, `%` or `+`. */
  lemma {:induction false} EncodeBytesAlphabet(bs: seq<byte>)
    ensures forall i :: 0 <= i < |EncodeBytes(bs)| ==>
      Unreserved(EncodeBytes(bs)[i]) || EncodeBytes(bs)[i] == '%' || EncodeBytes(bs)[i] == '+'
    decreases |bs|
  {
    if |bs| > 0 {
      EncodeBytesAlphabet(bs[1..]);
    }
  }

  /** An encoded title is made of unreserved characters and `%` only: in
      particular it holds no space and no `+`. */
  lemma CanonicalAlphabet(s: string)
    ensures forall i :: 0 <= i < |Canonical(s)| ==> Unreserved(Canonical(s)[i]) || Canonical(s)[i] == '%'
    ensures ' ' !in Canonical(s) && '+' !in Canonical(s)
  {
    EncodeBytesAlphabet(Utf8String(s));
  }

  /** A title made of unreserved characters only is left as it is. */
  lemma {:induction false} CanonicalKeepsUnreserved(s: string)
    requires forall i :: 0 <= i < |s| ==> Unreserved(s[i])
    ensures Canonical(s) == s
  {
    CanonicalCharsKeepUnreserved(s);
    CanonicalByChar(s);
  }

  lemma {:induction false} CanonicalCharsKeepUnreserved(s: string)
    requires forall i :: 0 <= i < |s| ==> Unreserved(s[i])
    ensures CanonicalChars(s) == s
    decreases |s|
  {
    if |s| > 0 {
      CanonicalCharsKeepUnreserved(s[1..]);
      assert s == [s[0]] + s[1..];
    }
  }

  /** `s` with every space replaced by an underscore. */
  function Underscored(s: string): string
    decreases |s|
  {
    if |s| == 0 then "" else [if s[0] == ' ' then '_' else s[0]] + Underscored(s[1..])
  }

  lemma {:induction false} CanonicalCharsUnderscored(s: string)
    ensures CanonicalChars(Underscored(s)) == CanonicalChars(s)
    decreases |s|
  {
    if |s| > 0 {
      var u := Underscored(s);
      assert u[0] == (if s[0] == ' ' then '_' else s[0]);
      assert u[1..] == Underscored(s[1..]);
      CanonicalCharsUnderscored(s[1..]);
    }
  }

  /** A title spelled with spaces and the same title spelled with underscores
      encode to the same node identifier. */
  lemma SpacesAndUnderscoresAgree(s: string)
    ensures Canonical(Underscored(s)) == Canonical(s)
  {
    CanonicalByChar(s);
    CanonicalByChar(Underscored(s));
    CanonicalCharsUnderscored(s);
  }

  lemma QuestionMarkExample()
    ensures Canonical("Who?") == "Who%3F"
  {
    CanonicalByChar("Who?");
  }

  // ---------------------------------------------------------------------------
  // Decoding: the form encoding loses nothing

  /** The byte sequence a form-encoded string stands for, or `None` when the
      string is not in the encoder's output alphabet. */
  function DecodeBytes(t: string): Option<seq<byte>>
    decreases |t|
  {
    if |t| == 0 then Some([])
    else if t[0] == '+' then
      match DecodeBytes(t[1..])
      case None => None
      case Some(rest) => Some([0x20] + rest)
    else if t[0] == '%' then
      if |t| >= 3 && IsHexDigit(t[1]) && IsHexDigit(t[2]) then
        match DecodeBytes(t[3..])
        case None => None
        case Some(rest) => Some([16 * HexValue(t[1]) + HexValue(t[2])] + rest)
      else None
    else if Unreserved(t[0]) then
      match DecodeBytes(t[1..])
      case None => None
      case Some(rest) => Some([t[0] as int] + rest)
    else None
  }

  lemma HexRoundTrip(d: int)
    requires 0 <= d < 16
    ensures IsHexDigit(HexDigit(d)) && HexValue(HexDigit(d)) == d
  {
  }

  lemma DecodeEncodeByte(b: byte, rest: string)
    ensures DecodeBytes(EncodeByte(b) + rest) ==
      match DecodeBytes(rest)
      case None => None
      case Some(r) => Some([b] + r)
  {
    var t := EncodeByte(b) + rest;
    if b < 0x80 && Unreserved(b as char) {
      assert t[0] == b as char && t[1..] == rest;
    } else if b == 0x20 {
      assert t[0] == '+' && t[1..] == rest;
    } else {
      HexRoundTrip(b / 16);
      HexRoundTrip(b % 16);
      assert t[0] == '%' && t[1] == HexDigit(b / 16) && t[2] == HexDigit(b % 16);
      assert t[3..] == rest;
    }
  }

  /** Decoding undoes the form encoding of any byte sequence, so two titles
      with different UTF-8 forms never share an encoding. */
  lemma {:induction false} DecodeEncode(bs: seq<byte>)
    ensures DecodeBytes(EncodeBytes(bs)) == Some(bs)
    decreases |bs|
  {
    if |bs| > 0 {
      DecodeEncode(bs[1..]);
      DecodeEncodeByte(bs[0], EncodeBytes(bs[1..]));
      assert bs == [bs[0]] + bs[1..];
    }
  }

  lemma FormEncodeInjective(s1: string, s2: string)
    requires FormEncode(s1) == FormEncode(s2)
    ensures Utf8String(s1) == Utf8String(s2)
  {
    DecodeEncode(Utf8String(s1));
    DecodeEncode(Utf8String(s2));
  }
}
