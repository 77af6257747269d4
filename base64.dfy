/** `btoa` and `atob`: Base64 with the standard alphabet and `=` padding of
    section 4 of RFC 4648 (not the URL-safe alphabet of section 5), over
    strings whose characters stand for bytes (Latin-1). Decoding follows
    the "forgiving-base64 decode" algorithm of the WHATWG Infra standard,
    which `atob` uses. */
module Base64 {
  import opened Wrappers

  type Byte = x: int | 0 <= x < 256

  /** The 64 characters of the standard alphabet. */
  predicate IsAlphabetChar(c: char)
  {
    ('A' <= c <= 'Z') || ('a' <= c <= 'z') || ('0' <= c <= '9') || c == '+' || c == '/'
  }

  /** The characters a `btoa` result can contain. */
  predicate IsTokenChar(c: char)
  {
    IsAlphabetChar(c) || c == '='
  }

  /** Table 1 of RFC 4648: the character for a 6-bit value. */
  function CharOf(v: nat): (c: char)
    requires v < 64
    ensures IsAlphabetChar(c)
  {
    if v < 26 then ('A' as int + v) as char
    else if v < 52 then ('a' as int + v - 26) as char
    else if v < 62 then ('0' as int + v - 52) as char
    else if v == 62 then '+'
    else '/'
  }

  /** The 6-bit value of an alphabet character. */
  function ValueOf(c: char): (r: Option<nat>)
    ensures r.Some? <==> IsAlphabetChar(c)
    ensures r.Some? ==> r.value < 64
  {
    if 'A' <= c <= 'Z' then Some(c as int - 'A' as int)
    else if 'a' <= c <= 'z' then Some(c as int - 'a' as int + 26)
    else if '0' <= c <= '9' then Some(c as int - '0' as int + 52)
    else if c == '+' then Some(62)
    else if c == '/' then Some(63)
    else None
  }

  lemma ValueOfCharOf(v: nat)
    requires v < 64
    ensures ValueOf(CharOf(v)) == Some(v)
  {
  }

  // ---------------------------------------------------------------------
  // Encoding (RFC 4648 section 4)

  type Sextet = x: int | 0 <= x < 64

  /** The 6-bit groups of `b`: four per full 24-bit group, then two for a
      final single byte or three for a final pair, the missing bits being
      zero. */
  function ToSextets(b: seq<Byte>): (r: seq<Sextet>)
    ensures |r| == |b| + (|b| + 2) / 3
  {
    if |b| == 0 then []
    else if |b| == 1 then [b[0] / 4, b[0] % 4 * 16]
    else if |b| == 2 then [b[0] / 4, b[0] % 4 * 16 + b[1] / 16, b[1] % 16 * 4]
    else [b[0] / 4, b[0] % 4 * 16 + b[1] / 16, b[1] % 16 * 4 + b[2] / 64, b[2] % 64] + ToSextets(b[3..])
  }

  /** The bytes that a run of 6-bit groups carries; a final pair gives one
      byte and a final triple two, the left-over bits being dropped. */
  function FromSextets(v: seq<Sextet>): (r: seq<Byte>)
    requires |v| % 4 != 1
  {
    if |v| == 0 then []
    else
      var c0, c1: int := v[0], v[1];
      var c2: int := if |v| >= 3 then v[2] else 0;
      var c3: int := if |v| >= 4 then v[3] else 0;
      var b0: Byte := c0 * 4 + c1 / 16;
      var b1: Byte := c1 % 16 * 16 + c2 / 4;
      var b2: Byte := c2 % 4 * 64 + c3;
      if |v| == 2 then [b0]
      else if |v| == 3 then [b0, b1]
      else [b0, b1, b2] + FromSextets(v[4..])
  }

  lemma {:induction false} FromToSextets(b: seq<Byte>)
    ensures FromSextets(ToSextets(b)) == b
  {
    if |b| >= 3 {
      var v := ToSextets(b);
      FromToSextets(b[3..]);
      assert v[4..] == ToSextets(b[3..]);
      assert b == [b[0], b[1], b[2]] + b[3..];
    }
  }

  function Chars(v: seq<Sextet>): (r: string)
    ensures |r| == |v|
    ensures forall i :: 0 <= i < |r| ==> IsAlphabetChar(r[i]) && r[i] == CharOf(v[i])
  {
    seq(|v|, i requires 0 <= i < |v| => CharOf(v[i]))
  }

  /** `=` characters that complete the final quantum. */
  function Padding(n: nat): string
  {
    if n % 3 == 1 then "==" else if n % 3 == 2 then "=" else ""
  }

  function Encode(b: seq<Byte>): string
  {
    Chars(ToSextets(b)) + Padding(|b|)
  }

  /** The encoded length is 4 * ceil(n / 3), and only alphabet characters
      and `=` occur. */
  lemma EncodeShape(b: seq<Byte>)
    ensures |Encode(b)| == 4 * ((|b| + 2) / 3)
    ensures forall i :: 0 <= i < |Encode(b)| ==> IsTokenChar(Encode(b)[i])
  {
    var u, p := Chars(ToSextets(b)), Padding(|b|);
    assert forall i :: 0 <= i < |p| ==> p[i] == '=';
    assert forall i :: 0 <= i < |u + p| ==> (u + p)[i] == if i < |u| then u[i] else p[i - |u|];
  }

  // ---------------------------------------------------------------------
  // Forgiving-base64 decode

  /** ASCII whitespace in the WHATWG Infra sense. */
  predicate IsAsciiWhitespace(c: char)
  {
    c == '\t' || c == '\n' || c == '\U{000C}' || c == '\r' || c == ' '
  }

  function RemoveAsciiWhitespace(s: string): (r: string)
    ensures |r| <= |s|
    ensures (forall i :: 0 <= i < |s| ==> !IsAsciiWhitespace(s[i])) ==> r == s
  {
    if |s| == 0 then ""
    else if IsAsciiWhitespace(s[0]) then RemoveAsciiWhitespace(s[1..])
    else [s[0]] + RemoveAsciiWhitespace(s[1..])
  }

  /** Whitespace removal works piece by piece. */
  lemma {:induction false} RemoveAsciiWhitespaceConcat(a: string, b: string)
    ensures RemoveAsciiWhitespace(a + b) == RemoveAsciiWhitespace(a) + RemoveAsciiWhitespace(b)
  {
    if |a| > 0 {
      assert (a + b)[1..] == a[1..] + b;
      RemoveAsciiWhitespaceConcat(a[1..], b);
    } else {
      assert a + b == b;
    }
  }

  /** A single space between two runs without whitespace is dropped. */
  lemma RemoveOneSpace(a: string, b: string)
    requires RemoveAsciiWhitespace(a) == a && RemoveAsciiWhitespace(b) == b
    ensures RemoveAsciiWhitespace(a + " " + b) == a + b
  {
    RemoveAsciiWhitespaceConcat(a + " ", b);
    RemoveAsciiWhitespaceConcat(a, " ");
    SpaceRemoved(" ");
    assert a + "" == a;
  }

  lemma SpaceRemoved(s: string)
    requires s == " "
    ensures RemoveAsciiWhitespace(s) == ""
  {
    assert s[1..] == "";
  }

  /** When the length is a multiple of four, one or two final `=` are
      dropped. */
  function StripPadding(s: string): string
  {
    if |s| % 4 != 0 then s
    else if |s| >= 2 && s[|s| - 2..] == "==" then s[..|s| - 2]
    else if |s| >= 1 && s[|s| - 1] == '=' then s[..|s| - 1]
    else s
  }

  predicate AllAlphabet(s: string)
  {
    forall i :: 0 <= i < |s| ==> IsAlphabetChar(s[i])
  }

  function Values(s: string): (r: seq<Sextet>)
    requires AllAlphabet(s)
    ensures |r| == |s| && forall i :: 0 <= i < |s| ==> Some(r[i]) == ValueOf(s[i])
  {
    seq(|s|, i requires 0 <= i < |s| => ValueOf(s[i]).value)
  }

  /** Forgiving-base64 decode: whitespace removed, padding dropped, then a
      remainder of one character or a character outside the alphabet is
      the failure (`None`) that makes `atob` throw. */
  function Decode(s: string): Option<seq<Byte>>
  {
    var t := StripPadding(RemoveAsciiWhitespace(s));
    if |t| % 4 == 1 then None
    else if !AllAlphabet(t) then None
    else Some(FromSextets(Values(t)))
  }

  lemma ValuesOfChars(v: seq<Sextet>)
    ensures AllAlphabet(Chars(v)) && Values(Chars(v)) == v
  {
    forall i | 0 <= i < |v| ensures Values(Chars(v))[i] == v[i] {
      ValueOfCharOf(v[i]);
    }
  }

  /** Padding removal takes off exactly the `=` that complete a quantum
      of alphabet characters. */
  lemma StripPaddingOf(u: string, p: string)
    requires AllAlphabet(u)
    requires p == "" || p == "=" || p == "=="
    requires (|u| + |p|) % 4 == 0
    requires p != "" ==> |u| >= 2
    ensures StripPadding(u + p) == u
  {
    var e := u + p;
    if p == "==" {
      assert e[|e| - 2..] == p && e[..|e| - 2] == u;
    } else if p == "=" {
      assert e[|e| - 2] == u[|u| - 1];
      assert e[..|e| - 1] == u;
    } else {
      assert e == u;
      if |e| > 0 {
        assert e[|e| - 1] == u[|u| - 1];
      }
    }
  }

  lemma StripEncoded(b: seq<Byte>)
    ensures StripPadding(Encode(b)) == Chars(ToSextets(b))
  {
    PaddedLength(|b|);
    StripPaddingOf(Chars(ToSextets(b)), Padding(|b|));
  }

  /** The sextets of `n` bytes and their padding fill whole quanta. */
  lemma PaddedLength(n: nat)
    ensures Padding(n) == "" || Padding(n) == "=" || Padding(n) == "=="
    ensures (n + (n + 2) / 3 + |Padding(n)|) % 4 == 0
    ensures Padding(n) != "" ==> n + (n + 2) / 3 >= 2
  {
    var q, r := n / 3, n % 3;
    assert n == 3 * q + r;
    if r == 0 {
      assert (n + 2) / 3 == q && Padding(n) == "";
      assert n + (n + 2) / 3 + |Padding(n)| == 4 * q;
    } else if r == 1 {
      assert (n + 2) / 3 == q + 1 && Padding(n) == "==";
      assert n + (n + 2) / 3 + |Padding(n)| == 4 * (q + 1);
    } else {
      assert (n + 2) / 3 == q + 1 && Padding(n) == "=";
      assert n + (n + 2) / 3 + |Padding(n)| == 4 * (q + 1);
    }
  }

  /** Decoding undoes encoding: the round trip of section 4 of RFC 4648. */
  lemma DecodeEncode(b: seq<Byte>)
    ensures Decode(Encode(b)) == Some(b)
  {
    var v := ToSextets(b);
    var e := Encode(b);
    EncodeShape(b);
    NoWhitespaceInToken(e);
    StripEncoded(b);
    var t := StripPadding(RemoveAsciiWhitespace(e));
    assert t == Chars(v);
    ValuesOfChars(v);
    SextetCount(b);
    assert |t| % 4 != 1 && AllAlphabet(t);
    FromToSextets(b);
  }

  lemma {:induction false} SextetCount(b: seq<Byte>)
    ensures |ToSextets(b)| % 4 != 1
  {
    if |b| >= 3 {
      SextetCount(b[3..]);
    }
  }

  lemma NoWhitespaceInToken(e: string)
    requires forall i :: 0 <= i < |e| ==> IsTokenChar(e[i])
    ensures RemoveAsciiWhitespace(e) == e
  {
    assert forall i :: 0 <= i < |e| ==> !IsAsciiWhitespace(e[i]);
  }

  // ---------------------------------------------------------------------
  // btoa / atob over strings

  /** Every character is a single byte (code point at most U+00FF). */
  predicate IsLatin1(s: string)
  {
    forall i :: 0 <= i < |s| ==> s[i] as int < 256
  }

  function Latin1Bytes(s: string): (r: seq<Byte>)
    requires IsLatin1(s)
    ensures |r| == |s| && forall i :: 0 <= i < |s| ==> r[i] == s[i] as int
  {
    seq(|s|, i requires 0 <= i < |s| => s[i] as int as Byte)
  }

  function BytesText(b: seq<Byte>): (r: string)
    ensures |r| == |b| && forall i :: 0 <= i < |b| ==> r[i] as int == b[i]
  {
    seq(|b|, i requires 0 <= i < |b| => b[i] as char)
  }

  /** `btoa(s)`: `None` stands for the InvalidCharacterError thrown for a
      character above U+00FF. */
  function Btoa(s: string): (r: Option<string>)
    ensures r.None? <==> !IsLatin1(s)
  {
    if IsLatin1(s) then Some(Encode(Latin1Bytes(s))) else None
  }

  /** `atob(s)`: `None` stands for the InvalidCharacterError it throws. */
  function Atob(s: string): (r: Option<string>)
  {
    match Decode(s)
    case None => None
    case Some(b) => Some(BytesText(b))
  }

  /** `atob(btoa(s))` gives back `s` whenever `btoa` succeeds. */
  lemma AtobBtoa(s: string)
    requires IsLatin1(s)
    ensures Btoa(s).Some? && Atob(Btoa(s).value) == Some(s)
  {
    DecodeEncode(Latin1Bytes(s));
    assert BytesText(Latin1Bytes(s)) == s;
  }

  /** A `btoa` token has length 4 * ceil(n / 3) and only alphabet
      characters and `=`. */
  lemma BtoaShape(s: string)
    requires IsLatin1(s)
    ensures |Btoa(s).value| == 4 * ((|s| + 2) / 3)
    ensures forall i :: 0 <= i < |Btoa(s).value| ==> IsTokenChar(Btoa(s).value[i])
  {
    EncodeShape(Latin1Bytes(s));
  }
}
