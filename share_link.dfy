/** Sharing an itinerary through a link: the plan's JSON text is put into
    the `itinerary` query parameter as Base64, and a visit to that link
    reads it back. Two versions are modelled side by side: the link as the
    code builds and reads it (`btoa` of the JSON text, placed in the query
    unescaped), and a corrected one (the UTF-8 bytes of the JSON text in
    Base64, escaped with `encodeURIComponent`) that the rest of the model
    uses. */
module ShareLink {
  import opened Wrappers
  import opened Json
  import Base64
  import Utf8
  import Url
  import GeminiService

  const ParamName: string := "itinerary"

  /** What loading the page with a query does to the itinerary: nothing
      when there is no (or an empty) `itinerary` parameter, the parsed
      value, or the "corrupted link" error when decoding or parsing
      throws. */
  datatype Loaded = NoLink | Plan(value: Value) | Corrupted

  // ---------------------------------------------------------------------
  // As written

  /** `btoa(JSON.stringify(plan))`; `None` stands for the
      InvalidCharacterError `btoa` throws on a character above U+00FF. */
  function ShareTokenAsWritten(v: Value): (r: Option<string>)
    ensures r.None? <==> !Base64.IsLatin1(Stringify(v))
  {
    Base64.Btoa(Stringify(v))
  }

  /** The query of the link as written: `?itinerary=` and the raw token. */
  function SearchAsWritten(token: string): string
  {
    "?" + ParamName + "=" + token
  }

  /** The page-load effect as written: `get('itinerary')`, a non-empty
      value, `atob`, `JSON.parse`. */
  function LoadAsWritten(search: string): Loaded
  {
    match Url.SearchParam(search, ParamName)
    case None => NoLink
    case Some(p) =>
      if p == "" then NoLink
      else match Base64.Atob(p)
        case None => Corrupted
        case Some(text) =>
          match Parse(text)
          case None => Corrupted
          case Some(v) => Plan(v)
  }

  /** The raw token comes back from the query with each `+` turned into a
      space, so a token holding `+` never reaches `atob` intact. */
  lemma RawTokenAltered(token: string)
    requires forall i :: 0 <= i < |token| ==> Base64.IsTokenChar(token[i])
    requires '+' in token
    ensures Url.SearchParam(SearchAsWritten(token), ParamName).Some?
    ensures Url.SearchParam(SearchAsWritten(token), ParamName).value != token
  {
    Url.SingleParam(ParamName, token);
    Url.FormDecodeRawToken(token);
    var i :| 0 <= i < |token| && token[i] == '+';
    assert Url.FormDecode(token)[i] == ' ';
  }

  /** A plan holding the two characters `a>` is shared as `ImE+Ig==`. */
  lemma TokenWithPlus()
    ensures ShareTokenAsWritten(String("a>")) == Some("ImE+Ig==")
  {
    var text := Stringify(String("a>"));
    QuotedText(text);
    var bytes := Base64.Latin1Bytes(text);
    TextBytes(text, bytes);
    var v := Base64.ToSextets(bytes);
    BytesSextets(bytes, v);
    SextetChars(v, Base64.Chars(v));
    EncodedToken(bytes, Base64.Encode(bytes), Base64.Chars(v));
  }

  lemma QuotedText(text: string)
    requires text == Stringify(String("a>"))
    ensures text == "\"a>\"" && Base64.IsLatin1(text)
  {
    assert EscapeText("a>") == "a>";
  }

  lemma TextBytes(text: string, bytes: seq<Base64.Byte>)
    requires text == "\"a>\"" && Base64.IsLatin1(text) && bytes == Base64.Latin1Bytes(text)
    ensures bytes == [34, 97, 62, 34]
  {
  }

  lemma BytesSextets(bytes: seq<Base64.Byte>, v: seq<Base64.Sextet>)
    requires bytes == [34, 97, 62, 34] && v == Base64.ToSextets(bytes)
    ensures v == [8, 38, 4, 62, 8, 32]
  {
    assert bytes[3..] == [34];
  }

  lemma SextetChars(v: seq<Base64.Sextet>, c: string)
    requires v == [8, 38, 4, 62, 8, 32] && c == Base64.Chars(v)
    ensures c == "ImE+Ig"
  {
  }

  lemma EncodedToken(bytes: seq<Base64.Byte>, token: string, c: string)
    requires |bytes| == 4 && token == Base64.Encode(bytes) && c == Base64.Chars(Base64.ToSextets(bytes))
    requires c == "ImE+Ig"
    ensures token == "ImE+Ig=="
  {
    assert Base64.Padding(|bytes|) == "==";
  }

  /** The link of that plan loads as corrupted: the query hands `atob`
      the text `ImE Ig==`, which after whitespace removal is not Base64. */
  lemma PlusInTokenCorruptsLink()
    ensures LoadAsWritten(SearchAsWritten("ImE+Ig==")) == Corrupted
  {
    var token := "ImE+Ig==";
    PlusTokenChars(token);
    Url.SingleParam(ParamName, token);
    var received := Url.FormDecode(token);
    PlusTokenReceived(token, received);
    AtobRejects(received);
    LoadAsWrittenCorrupted(SearchAsWritten(token), received);
  }

  lemma PlusTokenChars(token: string)
    requires token == "ImE+Ig=="
    ensures forall i :: 0 <= i < |token| ==> Base64.IsTokenChar(token[i])
  {
  }

  lemma PlusTokenReceived(token: string, received: string)
    requires token == "ImE+Ig==" && received == Url.FormDecode(token)
    ensures received == "ImE Ig=="
  {
    PlusTokenChars(token);
    Url.FormDecodeRawToken(token);
    assert |received| == 8;
    assert received[3] == ' ';
  }

  lemma AtobRejects(s: string)
    requires s == "ImE Ig=="
    ensures Base64.Atob(s).None?
  {
    SpaceDropped();
    AtobRejectsAt(s, "ImEIg==");
  }

  lemma AtobRejectsAt(s: string, t: string)
    requires Base64.RemoveAsciiWhitespace(s) == t && |t| == 7 && t[5] == '='
    ensures Base64.Atob(s).None?
  {
    assert !Base64.AllAlphabet(Base64.StripPadding(t));
  }

  lemma SpaceDropped()
    ensures Base64.RemoveAsciiWhitespace("ImE Ig==") == "ImEIg=="
  {
    assert Base64.RemoveAsciiWhitespace("ImE") == "ImE";
    assert Base64.RemoveAsciiWhitespace("Ig==") == "Ig==";
    Base64.RemoveOneSpace("ImE", "Ig==");
    assert "ImE" + " " + "Ig==" == "ImE Ig==";
    assert "ImE" + "Ig==" == "ImEIg==";
  }

  lemma LoadAsWrittenCorrupted(search: string, p: string)
    requires Url.SearchParam(search, ParamName) == Some(p) && p != ""
    requires Base64.Atob(p).None?
    ensures LoadAsWritten(search) == Corrupted
  {
  }

  /** A plan holding a character above U+00FF (any Devanagari, Tamil,
      Telugu or Malayalam letter, or the rupee sign) cannot be shared:
      `btoa` throws. */
  lemma WideCharacterBlocksSharing(s: string, i: nat)
    requires i < |s| && s[i] as int >= 256
    ensures ShareTokenAsWritten(String(s)).None?
  {
    EscapeKeepsWide(s, i);
    var k :| 0 <= k < |EscapeText(s)| && EscapeText(s)[k] == s[i];
    assert Stringify(String(s))[k + 1] == s[i];
  }

  lemma {:induction false} EscapeKeepsWide(s: string, i: nat)
    requires i < |s| && s[i] as int >= 256
    ensures exists k :: 0 <= k < |EscapeText(s)| && EscapeText(s)[k] == s[i]
  {
    var head := EscapeChar(s[0]);
    if i == 0 {
      assert head == [s[0]];
      assert EscapeText(s)[0] == s[0];
    } else {
      EscapeKeepsWide(s[1..], i - 1);
      var k :| 0 <= k < |EscapeText(s[1..])| && EscapeText(s[1..])[k] == s[1..][i - 1];
      assert EscapeText(s)[|head| + k] == s[i];
    }
  }

  // ---------------------------------------------------------------------
  // Corrected

  /** The UTF-8 bytes of the JSON text, in Base64: defined for every plan. */
  function ShareToken(v: Value): (r: string)
    ensures |r| > 0
    ensures forall i :: 0 <= i < |r| ==> Base64.IsTokenChar(r[i])
  {
    GeminiService.StringifyEnds(v);
    Base64.EncodeShape(Utf8.Encode(Stringify(v)));
    Base64.Encode(Utf8.Encode(Stringify(v)))
  }

  /** The query of the corrected link: the token passed through
      `encodeURIComponent`. */
  function ShareSearch(v: Value): string
  {
    "?" + ParamName + "=" + Url.EscapeToken(ShareToken(v))
  }

  /** The corrected page-load effect: Base64, then UTF-8, then JSON. */
  function Load(search: string): Loaded
  {
    match Url.SearchParam(search, ParamName)
    case None => NoLink
    case Some(p) =>
      if p == "" then NoLink
      else match Base64.Decode(p)
        case None => Corrupted
        case Some(bytes) =>
          match Utf8.Decode(bytes)
          case None => Corrupted
          case Some(text) =>
            match Parse(text)
            case None => Corrupted
            case Some(v) => Plan(v)
  }

  /** Every well-formed plan, whatever characters it holds, loads back
      from its own corrected link. */
  lemma ShareRoundTrip(v: Value)
    requires WellFormed(v)
    ensures Load(ShareSearch(v)) == Plan(v)
  {
    var text := Stringify(v);
    var bytes := Utf8.Encode(text);
    var token := ShareToken(v);
    assert token == Base64.Encode(bytes);
    Url.SingleParam(ParamName, Url.EscapeToken(token));
    Url.FormDecodeEscapeToken(token);
    Base64.DecodeEncode(bytes);
    Utf8.DecodeEncode(text);
    ParseStringify(v);
    LoadSteps(ShareSearch(v), token, bytes, text, v);
  }

  lemma LoadSteps(search: string, p: string, bytes: seq<Base64.Byte>, text: string, v: Value)
    requires Url.SearchParam(search, ParamName) == Some(p) && p != ""
    requires Base64.Decode(p) == Some(bytes)
    requires Utf8.Decode(bytes) == Some(text)
    requires Parse(text) == Some(v)
    ensures Load(search) == Plan(v)
  {
  }

  /** A page address without the parameter leaves the itinerary alone. */
  lemma NoParamNoLink(search: string)
    requires Url.SearchParam(search, ParamName).None?
    ensures Load(search) == NoLink && LoadAsWritten(search) == NoLink
  {
  }
}
