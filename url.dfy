/** The query string of a page address: how `URLSearchParams` reads a
    parameter back (the application/x-www-form-urlencoded parser of the
    WHATWG URL standard, section 5.1) and the percent-escaping that
    `encodeURIComponent` applies to the characters of a Base64 token. */
module Url {
  import opened Wrappers
  import Text
  import Base64
  import Json

  /** The character a `%XX` escape at the start of `s` stands for, when it
      is a complete escape of an ASCII byte. */
  function EscapedAscii(s: string): Option<char>
  {
    if |s| >= 3 && s[0] == '%' && Json.HexValue(s[1]).Some? && Json.HexValue(s[2]).Some?
       && Json.HexValue(s[1]).value * 16 + Json.HexValue(s[2]).value < 0x80
    then Some((Json.HexValue(s[1]).value * 16 + Json.HexValue(s[2]).value) as char)
    else None
  }

  /** Decoding a name or value: `+` becomes a space and a `%XX` escape
      becomes its character; anything else, including a `%` that starts no
      escape, is kept. */
  function FormDecode(s: string): (r: string)
    ensures |r| <= |s|
  {
    if |s| == 0 then ""
    else if s[0] == '+' then " " + FormDecode(s[1..])
    else if EscapedAscii(s).Some? then [EscapedAscii(s).value] + FormDecode(s[3..])
    else [s[0]] + FormDecode(s[1..])
  }

  /** Text without `+` or `%` decodes to itself. */
  lemma {:induction false} FormDecodePlain(s: string)
    requires forall i :: 0 <= i < |s| ==> s[i] != '+' && s[i] != '%'
    ensures FormDecode(s) == s
  {
    if |s| > 0 {
      FormDecodePlain(s[1..]);
      assert [s[0]] + s[1..] == s;
    }
  }

  /** The pieces of a query between `&` separators. */
  function Pieces(q: string): (r: seq<string>)
    ensures |r| > 0
    decreases |q|
  {
    match Text.IndexOf(q, "&")
    case None => [q]
    case Some(i) => [q[..i]] + Pieces(q[i + 1..])
  }

  /** A piece's name and value: split at its first `=`; without one the
      whole piece is the name and the value is empty. */
  function NameAndValue(piece: string): (string, string)
  {
    match Text.IndexOf(piece, "=")
    case None => (piece, "")
    case Some(i) => (piece[..i], piece[i + 1..])
  }

  /** `URLSearchParams.get(name)` over the pieces: the value of the first
      non-empty piece whose decoded name is `name`. */
  function Lookup(pieces: seq<string>, name: string): (r: Option<string>)
    ensures r.None? ==> forall i :: 0 <= i < |pieces| && pieces[i] != "" ==> FormDecode(NameAndValue(pieces[i]).0) != name
  {
    if |pieces| == 0 then None
    else if pieces[0] == "" then Lookup(pieces[1..], name)
    else
      var (n, v) := NameAndValue(pieces[0]);
      if FormDecode(n) == name then Some(FormDecode(v)) else Lookup(pieces[1..], name)
  }

  /** `new URLSearchParams(search).get(name)`: a leading `?` is dropped. */
  function SearchParam(search: string, name: string): Option<string>
  {
    var q := if |search| > 0 && search[0] == '?' then search[1..] else search;
    Lookup(Pieces(q), name)
  }

  /** A query made of a single `name=value` pair, neither holding `&`, the
      name plain: the parameter reads back as the decoded value. */
  lemma SingleParam(name: string, value: string)
    requires forall i :: 0 <= i < |name| ==> name[i] != '&' && name[i] != '=' && name[i] != '+' && name[i] != '%'
    requires forall i :: 0 <= i < |value| ==> value[i] != '&'
    ensures SearchParam("?" + name + "=" + value, name) == Some(FormDecode(value))
  {
    var q := name + "=" + value;
    QueryOfPair(name, value);
    QueryAfterMark("?" + name + "=" + value, q, name);
    OnePiece(name, value);
    PairSplit(name, value);
    FormDecodePlain(name);
    LookupFirst(q, name, FormDecode(value));
  }

  lemma QueryOfPair(name: string, value: string)
    ensures ("?" + name + "=" + value)[1..] == name + "=" + value
  {
    assert "?" + name + "=" + value == "?" + (name + "=" + value);
  }

  lemma QueryAfterMark(search: string, q: string, name: string)
    requires |search| > 0 && search[0] == '?' && search[1..] == q
    ensures SearchParam(search, name) == Lookup(Pieces(q), name)
  {
  }

  lemma LookupFirst(piece: string, name: string, value: string)
    requires piece != ""
    requires FormDecode(NameAndValue(piece).0) == name
    requires FormDecode(NameAndValue(piece).1) == value
    ensures Lookup([piece], name) == Some(value)
  {
  }

  lemma OnePiece(name: string, value: string)
    requires forall i :: 0 <= i < |name| ==> name[i] != '&'
    requires forall i :: 0 <= i < |value| ==> value[i] != '&'
    ensures Pieces(name + "=" + value) == [name + "=" + value]
  {
    var q := name + "=" + value;
    forall i | 0 <= i < |q| ensures q[i] != '&' {
      if i < |name| {
        assert q[i] == name[i];
      } else if i > |name| {
        assert q[i] == value[i - |name| - 1];
      }
    }
    NoOccurrence(q, '&');
    Text.IndexOfIsFirst(q, "&");
    NoSeparatorOnePiece(q);
  }

  lemma NoSeparatorOnePiece(q: string)
    requires Text.IndexOf(q, "&").None?
    ensures Pieces(q) == [q]
  {
  }

  lemma PairSplit(name: string, value: string)
    requires forall i :: 0 <= i < |name| ==> name[i] != '='
    ensures NameAndValue(name + "=" + value) == (name, value)
  {
    Text.PlaceholderReplaced(name, "=", value, "");
    var q := name + "=" + value;
    assert q[..|name|] == name;
    assert q[|name| + 1..] == value;
  }

  lemma NoOccurrence(s: string, c: char)
    requires forall i :: 0 <= i < |s| ==> s[i] != c
    ensures !Text.Contains(s, [c])
  {
    forall k: nat | k <= |s| ensures !Text.OccursAt(s, [c], k) {
      if k + 1 <= |s| {
        assert s[k..k + 1][0] == s[k];
      }
    }
  }

  // ---------------------------------------------------------------------
  // Escaping a Base64 token

  /** `encodeURIComponent` on a Base64 character: letters and digits are
      kept, `+`, `/` and `=` become `%2B`, `%2F` and `%3D`. */
  function EscapeChar(c: char): (r: string)
    requires Base64.IsTokenChar(c)
    ensures |r| > 0 && (r[0] == '%' || r == [c])
  {
    if c == '+' then "%2B" else if c == '/' then "%2F" else if c == '=' then "%3D" else [c]
  }

  /** `encodeURIComponent(token)` for a Base64 token. */
  function EscapeToken(t: string): (r: string)
    requires forall i :: 0 <= i < |t| ==> Base64.IsTokenChar(t[i])
    ensures forall i :: 0 <= i < |r| ==> r[i] != '&' && r[i] != '+' && r[i] != '='
  {
    if |t| == 0 then "" else EscapeChar(t[0]) + EscapeToken(t[1..])
  }

  /** The query parser gives back every escaped token unchanged. */
  lemma {:induction false} FormDecodeEscapeToken(t: string)
    requires forall i :: 0 <= i < |t| ==> Base64.IsTokenChar(t[i])
    ensures FormDecode(EscapeToken(t)) == t
  {
    if |t| > 0 {
      FormDecodeEscapeToken(t[1..]);
      FormDecodeEscapeChar(t[0], EscapeToken(t[1..]));
      assert [t[0]] + t[1..] == t;
    }
  }

  /** One escaped character decodes back to itself, whatever follows. */
  lemma FormDecodeEscapeChar(c: char, rest: string)
    requires Base64.IsTokenChar(c)
    ensures FormDecode(EscapeChar(c) + rest) == [c] + FormDecode(rest)
  {
    var s := EscapeChar(c) + rest;
    if c == '+' || c == '/' || c == '=' {
      assert s[..3] == EscapeChar(c) && s[3..] == rest;
      assert EscapedAscii(s) == Some(c);
    } else {
      assert s[0] == c && s[1..] == rest;
    }
  }

  /** An unescaped token comes back with every `+` turned into a space. */
  lemma {:induction false} FormDecodeRawToken(t: string)
    requires forall i :: 0 <= i < |t| ==> Base64.IsTokenChar(t[i])
    ensures |FormDecode(t)| == |t|
    ensures forall i :: 0 <= i < |t| ==> FormDecode(t)[i] == if t[i] == '+' then ' ' else t[i]
  {
    if |t| > 0 {
      FormDecodeRawToken(t[1..]);
    }
  }
}
