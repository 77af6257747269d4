/** The part of `JSON.stringify` and `JSON.parse` that the core relies on,
    over JSON values whose numbers are integers.

    Objects keep their members in insertion order and hold each key once;
    parsing a text that repeats a key keeps the first position and the last
    value, as `JSON.parse` does. */
module Json {
  import opened Wrappers
  import opened JsNumbers

  datatype Value =
    | Null
    | Bool(b: bool)
    | Number(n: int)
    | String(str: string)
    | Array(items: seq<Value>)
    | Object(members: seq<Member>)

  datatype Member = Member(key: string, value: Value)

  /** No key appears twice among the members of one object. */
  predicate DistinctKeys(ms: seq<Member>)
  {
    forall i, j | 0 <= i < j < |ms| :: ms[i].key != ms[j].key
  }

  /** Every object inside `v` has distinct keys: the values `JSON.parse`
      can produce. */
  predicate WellFormed(v: Value)
    decreases v
  {
    match v
    case Array(items) => forall i | 0 <= i < |items| :: WellFormed(items[i])
    case Object(ms) => DistinctKeys(ms) && forall i | 0 <= i < |ms| :: WellFormed(ms[i].value)
    case _ => true
  }

  // ---------------------------------------------------------------------
  // JSON.stringify

  function HexDigit(d: nat): char
    requires d < 16
  {
    if d < 10 then DigitChar(d) else ('a' as int + d - 10) as char
  }

  /** How `JSON.stringify` writes one character of a string: the two-letter
      escapes, `\u00xx` (lower-case hex) for the other control characters,
      and every other character as it is. */
  function EscapeChar(c: char): string
  {
    if c == '"' then "\\\""
    else if c == '\\' then "\\\\"
    else if c == '\U{0008}' then "\\b"
    else if c == '\t' then "\\t"
    else if c == '\n' then "\\n"
    else if c == '\U{000C}' then "\\f"
    else if c == '\r' then "\\r"
    else if c < ' ' then "\\u00" + [HexDigit(c as int / 16), HexDigit(c as int % 16)]
    else [c]
  }

  function EscapeText(s: string): string
  {
    if |s| == 0 then "" else EscapeChar(s[0]) + EscapeText(s[1..])
  }

  function Quote(s: string): string
  {
    "\"" + EscapeText(s) + "\""
  }

  /** `JSON.stringify(v)`: no whitespace, members in their order. */
  function Stringify(v: Value): string
    decreases v
  {
    match v
    case Null => "null"
    case Bool(b) => if b then "true" else "false"
    case Number(n) => IntText(n)
    case String(s) => Quote(s)
    case Array(items) => "[" + ItemsText(items) + "]"
    case Object(ms) => "{" + MembersText(ms) + "}"
  }

  function ItemsText(items: seq<Value>): string
    decreases items
  {
    if |items| == 0 then "" else Stringify(items[0]) + MoreItemsText(items[1..])
  }

  function MoreItemsText(items: seq<Value>): string
    decreases items
  {
    if |items| == 0 then "" else "," + Stringify(items[0]) + MoreItemsText(items[1..])
  }

  function MemberText(m: Member): string
    decreases m
  {
    Quote(m.key) + ":" + Stringify(m.value)
  }

  function MembersText(ms: seq<Member>): string
    decreases ms
  {
    if |ms| == 0 then "" else MemberText(ms[0]) + MoreMembersText(ms[1..])
  }

  function MoreMembersText(ms: seq<Member>): string
    decreases ms
  {
    if |ms| == 0 then "" else "," + MemberText(ms[0]) + MoreMembersText(ms[1..])
  }

  // ---------------------------------------------------------------------
  // JSON.parse

  /** The four whitespace characters JSON allows between tokens. */
  predicate IsJsonWhitespace(c: char)
  {
    c == ' ' || c == '\t' || c == '\n' || c == '\r'
  }

  function SkipWhitespace(s: string): (r: string)
    ensures |r| <= |s|
    ensures |r| > 0 ==> !IsJsonWhitespace(r[0])
  {
    if |s| > 0 && IsJsonWhitespace(s[0]) then SkipWhitespace(s[1..]) else s
  }

  function HexValue(c: char): (r: Option<nat>)
    ensures r.Some? ==> r.value < 16
  {
    if '0' <= c <= '9' then Some(c as int - '0' as int)
    else if 'a' <= c <= 'f' then Some(c as int - 'a' as int + 10)
    else if 'A' <= c <= 'F' then Some(c as int - 'A' as int + 10)
    else None
  }

  /** The character written by the escape sequence at the start of `s`
      (the backslash already consumed), and the text after it. A `\u`
      escape of a UTF-16 surrogate is refused. */
  function Unescape(s: string): (r: Option<(char, string)>)
    ensures r.Some? ==> |r.value.1| < |s|
  {
    if |s| == 0 then None
    else if s[0] == '"' then Some(('"', s[1..]))
    else if s[0] == '\\' then Some(('\\', s[1..]))
    else if s[0] == '/' then Some(('/', s[1..]))
    else if s[0] == 'b' then Some(('\U{0008}', s[1..]))
    else if s[0] == 'f' then Some(('\U{000C}', s[1..]))
    else if s[0] == 'n' then Some(('\n', s[1..]))
    else if s[0] == 'r' then Some(('\r', s[1..]))
    else if s[0] == 't' then Some(('\t', s[1..]))
    else if s[0] == 'u' && |s| >= 5 then
      match HexCode(s[1], s[2], s[3], s[4])
      case None => None
      case Some(code) =>
        if 0xD800 <= code < 0xE000 then None else Some((code as char, s[5..]))
    else None
  }

  /** The value of four hex digits. */
  function HexCode(a: char, b: char, c: char, d: char): (r: Option<nat>)
    ensures r.Some? ==> r.value < 0x10000
  {
    match (HexValue(a), HexValue(b), HexValue(c), HexValue(d))
    case (Some(x), Some(y), Some(z), Some(w)) => Some(((x * 16 + y) * 16 + z) * 16 + w)
    case _ => None
  }

  /** The characters of a string literal up to its closing quote (the
      opening quote already consumed), appended to `acc`. Raw control
      characters are refused. */
  function ParseStringBody(s: string, acc: string): (r: Option<(string, string)>)
    ensures r.Some? ==> |r.value.1| < |s|
    decreases |s|
  {
    if |s| == 0 then None
    else if s[0] == '"' then Some((acc, s[1..]))
    else if s[0] == '\\' then
      match Unescape(s[1..])
      case None => None
      case Some((c, rest)) => ParseStringBody(rest, acc + [c])
    else if s[0] < ' ' then None
    else ParseStringBody(s[1..], acc + [s[0]])
  }

  /** An unsigned integer literal: `0`, or a non-zero digit and the digits
      after it. A fraction or an exponent is refused. */
  function ParseUnsigned(s: string): (r: Option<(nat, string)>)
    ensures r.Some? ==> |r.value.1| < |s|
  {
    var k := if |s| > 0 && s[0] == '0' then 1 else LeadingDigits(s);
    if k == 0 then None
    else if k < |s| && (s[k] == '.' || s[k] == 'e' || s[k] == 'E') then None
    else Some((DigitsValue(s[..k]), s[k..]))
  }

  function ParseNumber(s: string): (r: Option<(int, string)>)
    ensures r.Some? ==> |r.value.1| < |s|
  {
    if |s| > 0 && s[0] == '-' then
      match ParseUnsigned(s[1..])
      case None => None
      case Some((n, rest)) => Some((-(n as int), rest))
    else
      match ParseUnsigned(s)
      case None => None
      case Some((n, rest)) => Some((n, rest))
  }

  /** The member list with `m` added: an existing key keeps its position
      and takes the new value, a new key goes at the end. */
  function Put(ms: seq<Member>, m: Member): seq<Member>
  {
    if |ms| == 0 then [m]
    else if ms[0].key == m.key then [m] + ms[1..]
    else [ms[0]] + Put(ms[1..], m)
  }

  /** One JSON value at the start of `s` (after optional whitespace), and
      the text after it. */
  function ParseValue(s: string): (r: Option<(Value, string)>)
    ensures r.Some? ==> |r.value.1| < |s|
    decreases |s|, 0
  {
    var t := SkipWhitespace(s);
    if |t| == 0 then None
    else if t[0] == 'n' then (if |t| >= 4 && t[..4] == "null" then Some((Null, t[4..])) else None)
    else if t[0] == 't' then (if |t| >= 4 && t[..4] == "true" then Some((Bool(true), t[4..])) else None)
    else if t[0] == 'f' then (if |t| >= 5 && t[..5] == "false" then Some((Bool(false), t[5..])) else None)
    else if t[0] == '"' then
      match ParseStringBody(t[1..], "")
      case None => None
      case Some((str, rest)) => Some((String(str), rest))
    else if t[0] == '[' then ParseArray(t[1..])
    else if t[0] == '{' then ParseObject(t[1..])
    else
      match ParseNumber(t)
      case None => None
      case Some((n, rest)) => Some((Number(n), rest))
  }

  /** The rest of an array after its `[`. */
  function ParseArray(s: string): (r: Option<(Value, string)>)
    ensures r.Some? ==> |r.value.1| < |s|
    decreases |s|, 1
  {
    var t := SkipWhitespace(s);
    if |t| > 0 && t[0] == ']' then Some((Array([]), t[1..]))
    else
      match ParseValue(t)
      case None => None
      case Some((v, rest)) =>
        match ParseMoreItems(rest, [v])
        case None => None
        case Some((items, after)) => Some((Array(items), after))
  }

  /** The rest of an array after its items `acc`: more `,`-separated items
      and the closing `]`. */
  function ParseMoreItems(s: string, acc: seq<Value>): (r: Option<(seq<Value>, string)>)
    ensures r.Some? ==> |r.value.1| < |s|
    decreases |s|, 1
  {
    var t := SkipWhitespace(s);
    if |t| == 0 then None
    else if t[0] == ']' then Some((acc, t[1..]))
    else if t[0] == ',' then
      match ParseValue(t[1..])
      case None => None
      case Some((v, rest)) => ParseMoreItems(rest, acc + [v])
    else None
  }

  /** One `"key": value` member. */
  function ParseMember(s: string): (r: Option<(Member, string)>)
    ensures r.Some? ==> |r.value.1| < |s|
    decreases |s|, 1
  {
    var t := SkipWhitespace(s);
    if |t| == 0 || t[0] != '"' then None
    else
      match ParseStringBody(t[1..], "")
      case None => None
      case Some((key, r1)) =>
        var r2 := SkipWhitespace(r1);
        if |r2| == 0 || r2[0] != ':' then None
        else
          match ParseValue(r2[1..])
          case None => None
          case Some((v, r3)) => Some((Member(key, v), r3))
  }

  /** The rest of an object after its `{`. */
  function ParseObject(s: string): (r: Option<(Value, string)>)
    ensures r.Some? ==> |r.value.1| < |s|
    decreases |s|, 2
  {
    var t := SkipWhitespace(s);
    if |t| > 0 && t[0] == '}' then Some((Object([]), t[1..]))
    else
      match ParseMember(t)
      case None => None
      case Some((m, rest)) =>
        match ParseMoreMembers(rest, [m])
        case None => None
        case Some((ms, after)) => Some((Object(ms), after))
  }

  /** The rest of an object after its members `acc`. */
  function ParseMoreMembers(s: string, acc: seq<Member>): (r: Option<(seq<Member>, string)>)
    ensures r.Some? ==> |r.value.1| < |s|
    decreases |s|, 2
  {
    var t := SkipWhitespace(s);
    if |t| == 0 then None
    else if t[0] == '}' then Some((acc, t[1..]))
    else if t[0] == ',' then
      match ParseMember(t[1..])
      case None => None
      case Some((m, rest)) => ParseMoreMembers(rest, Put(acc, m))
    else None
  }

  /** `JSON.parse(text)`: one value, with nothing but whitespace around it;
      `None` stands for the SyntaxError it throws. */
  function Parse(text: string): Option<Value>
  {
    match ParseValue(text)
    case None => None
    case Some((v, rest)) => if SkipWhitespace(rest) == [] then Some(v) else None
  }

  // ---------------------------------------------------------------------
  // Round trip: JSON.parse(JSON.stringify(v)) gives v back

  /** What may follow a value inside a JSON text: nothing, or the
      punctuation that closes or continues a list. */
  predicate Follows(rest: string)
  {
    |rest| == 0 || rest[0] == ',' || rest[0] == ']' || rest[0] == '}'
  }

  lemma UnsignedRoundTrip(n: nat, rest: string)
    requires Follows(rest)
    ensures ParseUnsigned(NatText(n) + rest) == Some((n, rest))
  {
    var t := NatText(n);
    var s := t + rest;
    NatTextValue(n);
    if n == 0 {
      assert t == "0";
      assert s[..1] == t && s[1..] == rest;
    } else {
      LeadingDigitsOf(t, rest);
      assert s[..|t|] == t && s[|t|..] == rest;
    }
  }

  lemma NumberRoundTrip(n: int, rest: string)
    requires Follows(rest)
    ensures ParseNumber(IntText(n) + rest) == Some((n, rest))
  {
    if n < 0 {
      NegativeShape(-n, rest);
      UnsignedRoundTrip(-n, rest);
      NegativeStep(IntText(n) + rest, -n, rest);
    } else {
      UnsignedRoundTrip(n, rest);
      assert IsDigit(NatText(n)[0]);
    }
  }

  lemma NegativeShape(m: nat, rest: string)
    requires m > 0
    ensures var s := IntText(-(m as int)) + rest; |s| > 0 && s[0] == '-' && s[1..] == NatText(m) + rest
  {
    assert IntText(-(m as int)) == "-" + NatText(m);
  }

  lemma NegativeStep(s: string, m: nat, rest: string)
    requires |s| > 0 && s[0] == '-' && ParseUnsigned(s[1..]) == Some((m, rest))
    ensures ParseNumber(s) == Some((-(m as int), rest))
  {
  }

  lemma HexDigitValue(d: nat)
    requires d < 16
    ensures HexValue(HexDigit(d)) == Some(d)
  {
  }

  lemma EscapeCharRoundTrip(c: char, tail: string, acc: string)
    ensures ParseStringBody(EscapeChar(c) + tail, acc) == ParseStringBody(tail, acc + [c])
  {
    var s := EscapeChar(c) + tail;
    if c == '"' || c == '\\' || c == '\U{0008}' || c == '\t' || c == '\n' || c == '\U{000C}' || c == '\r' {
      assert s[2..] == tail;
    } else if c < ' ' {
      HexDigitValue(c as int / 16);
      HexDigitValue(c as int % 16);
      assert s[1..][5..] == tail;
    } else {
      assert s[1..] == tail;
    }
  }

  lemma {:induction false} EscapeTextRoundTrip(x: string, rest: string, acc: string)
    ensures ParseStringBody(EscapeText(x) + "\"" + rest, acc) == Some((acc + x, rest))
  {
    if |x| == 0 {
      var s := EscapeText(x) + "\"" + rest;
      assert s == "\"" + rest && s[0] == '"' && s[1..] == rest;
      assert acc + x == acc;
      CloseQuoteStep(s, acc);
    } else {
      EscapeTextStep(x, rest, acc);
      EscapeTextRoundTrip(x[1..], rest, acc + [x[0]]);
      assert acc + [x[0]] + x[1..] == acc + x;
    }
  }

  lemma CloseQuoteStep(s: string, acc: string)
    requires |s| > 0 && s[0] == '"'
    ensures ParseStringBody(s, acc) == Some((acc, s[1..]))
  {
  }

  lemma EscapeTextStep(x: string, rest: string, acc: string)
    requires |x| > 0
    ensures ParseStringBody(EscapeText(x) + "\"" + rest, acc)
         == ParseStringBody(EscapeText(x[1..]) + "\"" + rest, acc + [x[0]])
  {
    Reassociate(EscapeChar(x[0]), EscapeText(x[1..]), "\"", rest);
    EscapeCharRoundTrip(x[0], EscapeText(x[1..]) + "\"" + rest, acc);
  }

  lemma Reassociate(a: string, b: string, c: string, d: string)
    ensures a + b + c + d == a + (b + c + d)
  {
  }

  /** The first character of a stringified value is neither whitespace nor
      a closing bracket. */
  lemma StringifyStart(v: Value)
    ensures |Stringify(v)| > 0
    ensures var c := Stringify(v)[0]; !IsJsonWhitespace(c) && c != ']' && c != '}'
  {
    match v
    case Number(n) =>
      if n >= 0 { assert IsDigit(NatText(n)[0]); }
    case _ =>
  }

  lemma {:induction false} ValueRoundTrip(v: Value, rest: string)
    requires WellFormed(v) && Follows(rest)
    ensures ParseValue(Stringify(v) + rest) == Some((v, rest))
    decreases v, 1
  {
    match v
    case Null =>
      NullRoundTrip(rest);
    case Bool(b) =>
      BoolRoundTrip(b, rest);
    case Number(n) =>
      NumberValueRoundTrip(n, rest);
    case String(x) =>
      StringRoundTrip(x, rest);
    case Array(items) =>
      ArrayRoundTrip(items, rest);
    case Object(ms) =>
      ObjectRoundTrip(ms, rest);
  }

  lemma NullRoundTrip(rest: string)
    ensures ParseValue(Stringify(Null) + rest) == Some((Null, rest))
  {
    var s := Stringify(Null) + rest;
    assert s[..4] == "null" && s[4..] == rest;
  }

  lemma BoolRoundTrip(b: bool, rest: string)
    ensures ParseValue(Stringify(Bool(b)) + rest) == Some((Bool(b), rest))
  {
    var s := Stringify(Bool(b)) + rest;
    if b {
      assert s[..4] == "true" && s[4..] == rest;
    } else {
      assert s[..5] == "false" && s[5..] == rest;
    }
  }

  lemma NumberValueRoundTrip(n: int, rest: string)
    requires Follows(rest)
    ensures ParseValue(Stringify(Number(n)) + rest) == Some((Number(n), rest))
  {
    StringifyStart(Number(n));
    NumberRoundTrip(n, rest);
  }

  lemma StringRoundTrip(x: string, rest: string)
    ensures ParseValue(Quote(x) + rest) == Some((String(x), rest))
  {
    var s := Quote(x) + rest;
    assert s[0] == '"' && s[1..] == EscapeText(x) + "\"" + rest;
    EscapeTextRoundTrip(x, rest, "");
    assert "" + x == x;
  }

  lemma {:induction false} ArrayRoundTrip(items: seq<Value>, rest: string)
    requires forall i | 0 <= i < |items| :: WellFormed(items[i])
    ensures ParseValue(Stringify(Array(items)) + rest) == Some((Array(items), rest))
    decreases items, 3
  {
    var s := Stringify(Array(items)) + rest;
    assert s[0] == '[' && s[1..] == ItemsText(items) + "]" + rest;
    ItemsRoundTrip(items, rest);
  }

  lemma {:induction false} ObjectRoundTrip(ms: seq<Member>, rest: string)
    requires DistinctKeys(ms) && forall i | 0 <= i < |ms| :: WellFormed(ms[i].value)
    ensures ParseValue(Stringify(Object(ms)) + rest) == Some((Object(ms), rest))
    decreases ms, 3
  {
    var s := Stringify(Object(ms)) + rest;
    assert s[0] == '{' && s[1..] == MembersText(ms) + "}" + rest;
    MembersRoundTrip(ms, rest);
  }

  lemma {:induction false} ItemsRoundTrip(items: seq<Value>, rest: string)
    requires forall i | 0 <= i < |items| :: WellFormed(items[i])
    ensures ParseArray(ItemsText(items) + "]" + rest) == Some((Array(items), rest))
    decreases items, 2
  {
    var s := ItemsText(items) + "]" + rest;
    if |items| == 0 {
      assert s == "]" + rest && s[0] == ']' && s[1..] == rest;
      CloseStep(s, [], []);
    } else {
      var after := MoreItemsText(items[1..]) + "]" + rest;
      ItemsShape(items, rest);
      StringifyStart(items[0]);
      ValueRoundTrip(items[0], after);
      MoreItemsRoundTrip(items[1..], [items[0]], rest);
      assert [items[0]] + items[1..] == items;
      ParseArrayStep(s, items[0], after, items, rest);
    }
  }

  lemma ItemsShape(items: seq<Value>, rest: string)
    requires |items| > 0
    ensures var s := ItemsText(items) + "]" + rest; var after := MoreItemsText(items[1..]) + "]" + rest;
      && s == Stringify(items[0]) + after && Follows(after)
      && |Stringify(items[0])| > 0 && s[0] == Stringify(items[0])[0]
  {
    var b := MoreItemsText(items[1..]);
    assert ItemsText(items) == Stringify(items[0]) + b;
    assert Stringify(items[0]) + b + "]" + rest == Stringify(items[0]) + (b + "]" + rest);
    StringifyStart(items[0]);
    MoreItemsTextStart(items[1..]);
  }

  lemma ParseArrayStep(s: string, v: Value, after: string, items: seq<Value>, rest: string)
    requires |s| > 0 && !IsJsonWhitespace(s[0]) && s[0] != ']'
    requires ParseValue(s) == Some((v, after))
    requires ParseMoreItems(after, [v]) == Some((items, rest))
    ensures ParseArray(s) == Some((Array(items), rest))
  {
    assert SkipWhitespace(s) == s;
  }

  lemma {:induction false} MoreItemsRoundTrip(tail: seq<Value>, acc: seq<Value>, rest: string)
    requires forall i | 0 <= i < |tail| :: WellFormed(tail[i])
    ensures ParseMoreItems(MoreItemsText(tail) + "]" + rest, acc) == Some((acc + tail, rest))
    decreases tail
  {
    var s := MoreItemsText(tail) + "]" + rest;
    if |tail| == 0 {
      assert s == "]" + rest && s[0] == ']' && s[1..] == rest;
      assert acc + tail == acc;
      CloseStep(s, acc, []);
    } else {
      var after := MoreItemsText(tail[1..]) + "]" + rest;
      MoreItemsShape(tail, rest);
      ValueRoundTrip(tail[0], after);
      ParseMoreItemsStep(s, acc, tail[0], after);
      assert acc + [tail[0]] + tail[1..] == acc + tail;
      MoreItemsRoundTrip(tail[1..], acc + [tail[0]], rest);
    }
  }

  lemma MoreItemsShape(tail: seq<Value>, rest: string)
    requires |tail| > 0
    ensures var s := MoreItemsText(tail) + "]" + rest; var after := MoreItemsText(tail[1..]) + "]" + rest;
      && |s| > 0 && s[0] == ',' && s[1..] == Stringify(tail[0]) + after && Follows(after)
  {
    ListShape(MoreItemsText(tail), ',', Stringify(tail[0]), MoreItemsText(tail[1..]), ']', rest);
    MoreItemsTextStart(tail[1..]);
  }

  /** Re-bracketing `[c] + a + b` followed by a closing character and the
      rest of the text. */
  lemma ListShape(p: string, c: char, a: string, b: string, close: char, rest: string)
    requires p == [c] + a + b
    ensures var s := p + [close] + rest; var after := b + [close] + rest;
      && |s| > 0 && s[0] == c && s[1..] == a + after
      && |after| > 0 && after[0] == (if |b| > 0 then b[0] else close)
  {
    var s := p + [close] + rest;
    assert s == [c] + (a + (b + [close] + rest));
  }

  lemma MoreItemsTextStart(t: seq<Value>)
    ensures |t| == 0 ==> MoreItemsText(t) == ""
    ensures |t| > 0 ==> |MoreItemsText(t)| > 0 && MoreItemsText(t)[0] == ','
  {
  }

  /** A closing bracket ends the list being read. */
  lemma CloseStep(s: string, items: seq<Value>, ms: seq<Member>)
    requires |s| > 0 && (s[0] == ']' || s[0] == '}')
    ensures s[0] == ']' ==> ParseMoreItems(s, items) == Some((items, s[1..]))
    ensures s[0] == '}' ==> ParseMoreMembers(s, ms) == Some((ms, s[1..]))
    ensures s[0] == ']' ==> ParseArray(s) == Some((Array([]), s[1..]))
    ensures s[0] == '}' ==> ParseObject(s) == Some((Object([]), s[1..]))
  {
    assert SkipWhitespace(s) == s;
  }

  lemma ParseMoreItemsStep(s: string, acc: seq<Value>, v: Value, after: string)
    requires |s| > 0 && s[0] == ','
    requires ParseValue(s[1..]) == Some((v, after))
    ensures ParseMoreItems(s, acc) == ParseMoreItems(after, acc + [v])
  {
    assert SkipWhitespace(s) == s;
  }

  lemma {:induction false} MemberRoundTrip(m: Member, rest: string)
    requires WellFormed(m.value) && Follows(rest)
    ensures ParseMember(MemberText(m) + rest) == Some((m, rest))
    decreases m
  {
    var afterKey := ":" + Stringify(m.value) + rest;
    MemberTextShape(m, rest);
    EscapeTextRoundTrip(m.key, afterKey, "");
    assert "" + m.key == m.key;
    ValueRoundTrip(m.value, rest);
    ParseMemberStep(MemberText(m) + rest, m.key, afterKey, m.value, rest);
  }

  lemma MemberTextShape(m: Member, rest: string)
    ensures var s := MemberText(m) + rest; var afterKey := ":" + Stringify(m.value) + rest;
      && |s| > 0 && s[0] == '"' && s[1..] == EscapeText(m.key) + "\"" + afterKey
      && afterKey[0] == ':' && afterKey[1..] == Stringify(m.value) + rest
  {
    PairShape(EscapeText(m.key), Stringify(m.value), rest);
  }

  lemma PairShape(e: string, v: string, rest: string)
    ensures var s := "\"" + e + "\"" + ":" + v + rest; var afterKey := ":" + v + rest;
      && |s| > 0 && s[0] == '"' && s[1..] == e + "\"" + afterKey
      && afterKey[0] == ':' && afterKey[1..] == v + rest
  {
    var s := "\"" + e + "\"" + ":" + v + rest;
    assert s == "\"" + (e + "\"" + (":" + v + rest));
  }

  lemma ParseMemberStep(s: string, key: string, afterKey: string, v: Value, rest: string)
    requires |s| > 0 && s[0] == '"'
    requires ParseStringBody(s[1..], "") == Some((key, afterKey))
    requires |afterKey| > 0 && afterKey[0] == ':'
    requires ParseValue(afterKey[1..]) == Some((v, rest))
    ensures ParseMember(s) == Some((Member(key, v), rest))
  {
    assert SkipWhitespace(s) == s;
    assert SkipWhitespace(afterKey) == afterKey;
  }

  lemma {:induction false} MembersRoundTrip(ms: seq<Member>, rest: string)
    requires DistinctKeys(ms) && forall i | 0 <= i < |ms| :: WellFormed(ms[i].value)
    ensures ParseObject(MembersText(ms) + "}" + rest) == Some((Object(ms), rest))
    decreases ms, 2
  {
    var s := MembersText(ms) + "}" + rest;
    if |ms| == 0 {
      assert s == "}" + rest && s[0] == '}' && s[1..] == rest;
      CloseStep(s, [], []);
    } else {
      var after := MoreMembersText(ms[1..]) + "}" + rest;
      MembersShape(ms, rest);
      MemberRoundTrip(ms[0], after);
      assert [ms[0]] + ms[1..] == ms;
      MoreMembersRoundTrip(ms[1..], [ms[0]], rest);
      ParseObjectStep(s, ms[0], after, ms, rest);
    }
  }

  lemma MembersShape(ms: seq<Member>, rest: string)
    requires |ms| > 0
    ensures var s := MembersText(ms) + "}" + rest; var after := MoreMembersText(ms[1..]) + "}" + rest;
      && s == MemberText(ms[0]) + after && Follows(after) && |s| > 0 && s[0] == '"'
  {
    var b := MoreMembersText(ms[1..]);
    assert MembersText(ms) == MemberText(ms[0]) + b;
    assert MemberText(ms[0]) + b + "}" + rest == MemberText(ms[0]) + (b + "}" + rest);
    MoreMembersTextStart(ms[1..]);
  }

  lemma ParseObjectStep(s: string, m: Member, after: string, ms: seq<Member>, rest: string)
    requires |s| > 0 && s[0] == '"'
    requires ParseMember(s) == Some((m, after))
    requires ParseMoreMembers(after, [m]) == Some((ms, rest))
    ensures ParseObject(s) == Some((Object(ms), rest))
  {
    assert SkipWhitespace(s) == s;
  }

  lemma {:induction false} MoreMembersRoundTrip(tail: seq<Member>, acc: seq<Member>, rest: string)
    requires DistinctKeys(acc + tail) && forall i | 0 <= i < |tail| :: WellFormed(tail[i].value)
    ensures ParseMoreMembers(MoreMembersText(tail) + "}" + rest, acc) == Some((acc + tail, rest))
    decreases tail
  {
    var s := MoreMembersText(tail) + "}" + rest;
    if |tail| == 0 {
      assert s == "}" + rest && s[0] == '}' && s[1..] == rest;
      assert acc + tail == acc;
      CloseStep(s, [], acc);
    } else {
      var after := MoreMembersText(tail[1..]) + "}" + rest;
      MoreMembersShape(tail, rest);
      MemberRoundTrip(tail[0], after);
      ParseMoreMembersStep(s, acc, tail[0], after);
      ShiftMember(acc, tail);
      PutNewKey(acc, tail[0]);
      MoreMembersRoundTrip(tail[1..], acc + [tail[0]], rest);
    }
  }

  lemma MoreMembersShape(tail: seq<Member>, rest: string)
    requires |tail| > 0
    ensures var s := MoreMembersText(tail) + "}" + rest; var after := MoreMembersText(tail[1..]) + "}" + rest;
      && |s| > 0 && s[0] == ',' && s[1..] == MemberText(tail[0]) + after && Follows(after)
  {
    ListShape(MoreMembersText(tail), ',', MemberText(tail[0]), MoreMembersText(tail[1..]), '}', rest);
    MoreMembersTextStart(tail[1..]);
  }

  lemma MoreMembersTextStart(t: seq<Member>)
    ensures |t| == 0 ==> MoreMembersText(t) == ""
    ensures |t| > 0 ==> |MoreMembersText(t)| > 0 && MoreMembersText(t)[0] == ','
  {
  }


  lemma ParseMoreMembersStep(s: string, acc: seq<Member>, m: Member, after: string)
    requires |s| > 0 && s[0] == ','
    requires ParseMember(s[1..]) == Some((m, after))
    ensures ParseMoreMembers(s, acc) == ParseMoreMembers(after, Put(acc, m))
  {
    assert SkipWhitespace(s) == s;
  }

  lemma ShiftMember(acc: seq<Member>, tail: seq<Member>)
    requires |tail| > 0 && DistinctKeys(acc + tail)
    ensures forall i | 0 <= i < |acc| :: acc[i].key != tail[0].key
    ensures acc + [tail[0]] + tail[1..] == acc + tail
  {
    forall i | 0 <= i < |acc| ensures acc[i].key != tail[0].key {
      assert (acc + tail)[i] == acc[i] && (acc + tail)[|acc|] == tail[0];
    }
    assert acc + [tail[0]] + tail[1..] == acc + tail;
  }

  lemma {:induction false} PutNewKey(ms: seq<Member>, m: Member)
    requires forall i | 0 <= i < |ms| :: ms[i].key != m.key
    ensures Put(ms, m) == ms + [m]
  {
    if |ms| > 0 {
      PutNewKey(ms[1..], m);
      assert [ms[0]] + (ms[1..] + [m]) == ms + [m];
    }
  }

  /** `JSON.parse(JSON.stringify(v))` is `v` for every value `JSON.parse`
      can produce. */
  lemma ParseStringify(v: Value)
    requires WellFormed(v)
    ensures Parse(Stringify(v)) == Some(v)
  {
    var text := Stringify(v);
    ValueRoundTrip(v, "");
    assert text + "" == text;
    assert ParseValue(text) == Some((v, ""));
  }
}
