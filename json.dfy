// The fragment of JSON the application writes and reads back: string
// literals as JSON.stringify escapes them, arrays of strings (the skills
// columns) and the saved-search parameter object of the internships page.

module Json {
  import opened Common

  // ---------------------------------------------------------------------
  // String literals
  // ---------------------------------------------------------------------

  function HexDigit(d: nat): (c: char)
    requires d < 16
  {
    if d < 10 then ('0' as int + d) as char else ('a' as int + d - 10) as char
  }

  /** The value of a hexadecimal digit (either case), if `c` is one. */
  function HexValue(c: char): (r: Option<nat>)
    ensures r.Some? ==> r.value < 16
  {
    if '0' <= c <= '9' then Some(c as int - '0' as int)
    else if 'a' <= c <= 'f' then Some(c as int - 'a' as int + 10)
    else if 'A' <= c <= 'F' then Some(c as int - 'A' as int + 10)
    else None
  }

  lemma HexRoundTrip(d: nat)
    requires d < 16
    ensures HexValue(HexDigit(d)) == Some(d)
  {
  }

  /** How JSON.stringify writes one character inside a string literal. */
  function EscapeChar(c: char): (r: string)
    ensures |r| >= 1
  {
    var n := c as int;
    if c == '"' then ['\\', '"']
    else if c == '\\' then ['\\', '\\']
    else if n == 0x08 then ['\\', 'b']
    else if n == 0x0C then ['\\', 'f']
    else if n == 0x0A then ['\\', 'n']
    else if n == 0x0D then ['\\', 'r']
    else if n == 0x09 then ['\\', 't']
    else if n < 0x20 then ['\\', 'u', '0', '0', HexDigit(n / 16), HexDigit(n % 16)]
    else [c]
  }

  function EscapeAll(s: string): (r: string)
    ensures |r| >= |s|
  {
    if s == [] then [] else EscapeChar(s[0]) + EscapeAll(s[1..])
  }

  /** JSON.stringify of a string. */
  function Quote(s: string): (r: string)
    ensures |r| >= 2 && r[0] == '"'
  {
    ['"'] + EscapeAll(s) + ['"']
  }

  /** The character a backslash escape stands for, and how many characters
      after the backslash it used. */
  function DecodeEscape(t: string): (r: Option<(char, nat)>)
    ensures r.Some? ==> 1 <= r.value.1 <= |t|
  {
    if t == [] then None
    else if t[0] == '"' then Some(('"', 1))
    else if t[0] == '\\' then Some(('\\', 1))
    else if t[0] == '/' then Some(('/', 1))
    else if t[0] == 'b' then Some((0x08 as char, 1))
    else if t[0] == 'f' then Some((0x0C as char, 1))
    else if t[0] == 'n' then Some((0x0A as char, 1))
    else if t[0] == 'r' then Some((0x0D as char, 1))
    else if t[0] == 't' then Some((0x09 as char, 1))
    else if t[0] == 'u' && |t| >= 5 then
      match (HexValue(t[1]), HexValue(t[2]), HexValue(t[3]), HexValue(t[4]))
      case (Some(a), Some(b), Some(c), Some(d)) =>
        var v := ((a * 16 + b) * 16 + c) * 16 + d;
        // A lone surrogate is not a character of this model.
        if 0xD800 <= v < 0xE000 then None else Some((v as char, 5))
      case _ => None
    else None
  }

  /** Reads the body of a string literal up to and including the closing
      quote; yields the decoded text and what follows the quote. */
  function ParseBody(s: string): (r: Option<(string, string)>)
    ensures r.Some? ==> |r.value.1| < |s|
    decreases |s|
  {
    if s == [] then None
    else if s[0] == '"' then Some(([], s[1..]))
    else if s[0] == '\\' then
      match DecodeEscape(s[1..])
      case None => None
      case Some((c, k)) =>
        match ParseBody(s[1 + k..])
        case None => None
        case Some((body, rest)) => Some(([c] + body, rest))
    else if (s[0] as int) < 0x20 then None
    else
      match ParseBody(s[1..])
      case None => None
      case Some((body, rest)) => Some(([s[0]] + body, rest))
  }

  /** Reading back one escaped character. */
  lemma EscapeCharParses(c: char, t: string)
    ensures ParseBody(EscapeChar(c) + t) ==
      match ParseBody(t)
      case None => None
      case Some((body, rest)) => Some(([c] + body, rest))
  {
    var e := EscapeChar(c);
    var n := c as int;
    var s := e + t;
    if c == '"' || c == '\\' || n == 0x08 || n == 0x0C || n == 0x0A || n == 0x0D || n == 0x09 {
      assert s[1..][0] == e[1];
      assert s[2..] == t;
    } else if n < 0x20 {
      HexRoundTrip(n / 16);
      HexRoundTrip(n % 16);
      var u := s[1..];
      assert u[0] == 'u' && u[1] == '0' && u[2] == '0';
      assert u[3] == HexDigit(n / 16) && u[4] == HexDigit(n % 16);
      assert DecodeEscape(u) == Some((c, 5));
      assert s[6..] == t;
    } else {
      assert s[1..] == t;
    }
  }

  lemma {:induction false} EscapeAllParses(x: string, rest: string)
    ensures ParseBody(EscapeAll(x) + ['"'] + rest) == Some((x, rest))
    decreases |x|
  {
    if x == [] {
      assert EscapeAll(x) + ['"'] + rest == ['"'] + rest;
    } else {
      EscapeAllParses(x[1..], rest);
      assert EscapeAll(x) + ['"'] + rest == EscapeChar(x[0]) + (EscapeAll(x[1..]) + ['"'] + rest);
      EscapeCharParses(x[0], EscapeAll(x[1..]) + ['"'] + rest);
      assert [x[0]] + x[1..] == x;
    }
  }

  /** A string literal read back from JSON.stringify yields the same text. */
  lemma QuoteRoundTrip(x: string, rest: string)
    ensures ParseString(Quote(x) + rest) == Some((x, rest))
  {
    EscapeAllParses(x, rest);
    assert (Quote(x) + rest)[1..] == EscapeAll(x) + ['"'] + rest;
  }

  /** A string literal at the start of `s`, and what follows it. */
  function ParseString(s: string): (r: Option<(string, string)>)
    ensures r.Some? ==> |r.value.1| < |s|
  {
    if s == [] || s[0] != '"' then None else ParseBody(s[1..])
  }

  // ---------------------------------------------------------------------
  // Arrays of strings: the skills columns
  // ---------------------------------------------------------------------

  function JoinQuoted(xs: seq<string>): string
    requires xs != []
  {
    if |xs| == 1 then Quote(xs[0]) else Quote(xs[0]) + [','] + JoinQuoted(xs[1..])
  }

  /** JSON.stringify of an array of strings. */
  function StringifyStrings(xs: seq<string>): (r: string)
    ensures |r| >= 2 && r[0] == '['
  {
    if xs == [] then "[]" else ['['] + JoinQuoted(xs) + [']']
  }

  /** The string items after an opening bracket, up to the closing one. */
  function ParseItems(s: string): Option<seq<string>>
    decreases |s|
  {
    match ParseString(s)
    case None => None
    case Some((x, rest)) =>
      if rest == "]" then Some([x])
      else if rest != [] && rest[0] == ',' then
        match ParseItems(rest[1..])
        case None => None
        case Some(xs) => Some([x] + xs)
      else None
  }

  /** JSON.parse, when its input is an array of strings written without
      white space; None for anything else. */
  function ParseStrings(s: string): Option<seq<string>> {
    if s == "[]" then Some([])
    else if s != [] && s[0] == '[' then ParseItems(s[1..])
    else None
  }

  lemma {:induction false} JoinQuotedParses(xs: seq<string>)
    requires xs != []
    ensures ParseItems(JoinQuoted(xs) + "]") == Some(xs)
    decreases |xs|
  {
    if |xs| == 1 {
      QuoteRoundTrip(xs[0], "]");
      assert xs == [xs[0]];
    } else {
      var tail := JoinQuoted(xs[1..]) + "]";
      assert JoinQuoted(xs) + "]" == Quote(xs[0]) + ([','] + tail);
      QuoteRoundTrip(xs[0], [','] + tail);
      JoinQuotedParses(xs[1..]);
      assert ([','] + tail)[1..] == tail;
      assert [xs[0]] + xs[1..] == xs;
      assert ([','] + tail) != "]" by {
        assert |tail| >= 3;
      }
    }
  }

  /** Reading back what JSON.stringify wrote gives the same list of skills. */
  lemma StringifyStringsRoundTrip(xs: seq<string>)
    ensures ParseStrings(StringifyStrings(xs)) == Some(xs)
  {
    if xs != [] {
      JoinQuotedParses(xs);
      var s := StringifyStrings(xs);
      assert s[1..] == JoinQuoted(xs) + "]";
      assert s != "[]" by {
        assert |Quote(xs[0])| >= 2;
        if |xs| == 1 {
          assert |s| >= 4;
        } else {
          assert |s| >= 5;
        }
      }
    }
  }

  // ---------------------------------------------------------------------
  // Request-body values stored in a JSON column
  // ---------------------------------------------------------------------

  /** The JSON values a request body field can hold in this model:
      integers stand for numbers, and arrays are arrays of strings. */
  datatype JsonVal = JNull | JBool(b: bool) | JNum(n: int) | JStr(s: string) | JStrs(xs: seq<string>)

  /** JavaScript truthiness of a parsed body value. */
  predicate JsonTruthy(v: JsonVal) {
    match v
    case JNull => false
    case JBool(b) => b
    case JNum(n) => n != 0
    case JStr(s) => s != ""
    case JStrs(_) => true
  }

  /** String(n) for an integer. */
  function IntToString(n: int): (r: string)
    ensures r != [] && (r[0] == '-' || IsDigit(r[0]))
  {
    if n < 0 then "-" + NatToString(-n) else NatToString(n)
  }

  function Stringify(v: JsonVal): (r: string)
    ensures r != []
  {
    match v
    case JNull => "null"
    case JBool(b) => if b then "true" else "false"
    case JNum(n) => IntToString(n)
    case JStr(s) => Quote(s)
    case JStrs(xs) => StringifyStrings(xs)
  }

  /** A JSON unsigned integer: digits without a leading zero. */
  function ParseNat(d: string): Option<nat> {
    if d != [] && AllDigits(d) && (|d| == 1 || d[0] != '0') then Some(DigitsValue(d)) else None
  }

  /** JSON.parse of a text in the layout Stringify writes; None for any
      other text. */
  function ParseJson(text: string): Option<JsonVal> {
    if text == "null" then Some(JNull)
    else if text == "true" then Some(JBool(true))
    else if text == "false" then Some(JBool(false))
    else if text == [] then None
    else if text[0] == '"' then
      match ParseString(text)
      case Some((s, rest)) => if rest == [] then Some(JStr(s)) else None
      case None => None
    else if text[0] == '[' then
      match ParseStrings(text)
      case Some(xs) => Some(JStrs(xs))
      case None => None
    else if text[0] == '-' then
      match ParseNat(text[1..])
      case Some(m) => Some(JNum(-(m as int)))
      case None => None
    else
      match ParseNat(text)
      case Some(m) => Some(JNum(m))
      case None => None
  }

  lemma ParseNatRoundTrip(n: nat)
    ensures ParseNat(NatToString(n)) == Some(n)
  {
    NatToStringRoundTrip(n);
    NatToStringNoLeadingZero(n);
  }

  /** Reading back what JSON.stringify wrote gives the same value. */
  lemma JsonRoundTrip(v: JsonVal)
    ensures ParseJson(Stringify(v)) == Some(v)
  {
    match v
    case JNull =>
    case JBool(b) =>
    case JNum(n) =>
      NumberRoundTrip(n);
    case JStr(s) =>
      StringRoundTrip(s);
    case JStrs(xs) =>
      StringifyStringsRoundTrip(xs);
  }

  lemma NumberRoundTrip(n: int)
    ensures ParseJson(Stringify(JNum(n))) == Some(JNum(n))
  {
    var t := IntToString(n);
    if n < 0 {
      ParseNatRoundTrip(-n);
      assert t[1..] == NatToString(-n);
    } else {
      ParseNatRoundTrip(n);
    }
    assert t != "null" && t != "true" && t != "false" by {
      assert t[0] != 'n' && t[0] != 't' && t[0] != 'f';
    }
  }

  lemma StringRoundTrip(s: string)
    ensures ParseJson(Stringify(JStr(s))) == Some(JStr(s))
  {
    QuoteRoundTrip(s, []);
    assert Quote(s) + [] == Quote(s);
  }

  // ---------------------------------------------------------------------
  // Saved-search parameters of the internships page
  // ---------------------------------------------------------------------

  datatype Filters = Filters(kind: string, experience: string, location: string)
  datatype SearchParams = SearchParams(searchTerm: string, filters: Filters)

  const TermKey: string := "{\"searchTerm\":"
  const TypeKey: string := ",\"filters\":{\"type\":"
  const ExperienceKey: string := ",\"experience\":"
  const LocationKey: string := ",\"location\":"
  const Closing: string := "}}"

  /** JSON.stringify({ searchTerm, filters }) with the keys in the order
      the page creates them. */
  function StringifySearch(p: SearchParams): string {
    TermKey + (Quote(p.searchTerm) + (TypeKey + (Quote(p.filters.kind) +
    (ExperienceKey + (Quote(p.filters.experience) +
    (LocationKey + (Quote(p.filters.location) + Closing)))))))
  }

  /** `s` with the literal `lit` removed from its front. */
  function Expect(s: string, lit: string): Option<string> {
    if StartsWith(s, lit) then Some(s[|lit|..]) else None
  }

  /** `"lit" value` at the front of `s`: the value and what follows. */
  function Field(s: string, lit: string): Option<(string, string)> {
    match Expect(s, lit)
    case None => None
    case Some(t) => ParseString(t)
  }

  /** JSON.parse of a saved search written in that layout. */
  function ParseSearch(s: string): Option<SearchParams> {
    match Field(s, TermKey)
    case None => None
    case Some((term, s1)) =>
      match Field(s1, TypeKey)
      case None => None
      case Some((kind, s2)) =>
        match Field(s2, ExperienceKey)
        case None => None
        case Some((exp, s3)) =>
          match Field(s3, LocationKey)
          case None => None
          case Some((loc, s4)) =>
            if s4 == Closing then Some(SearchParams(term, Filters(kind, exp, loc))) else None
  }

  lemma FieldRoundTrip(lit: string, x: string, rest: string)
    ensures Field(lit + (Quote(x) + rest), lit) == Some((x, rest))
  {
    var s := lit + (Quote(x) + rest);
    assert s[..|lit|] == lit;
    assert s[|lit|..] == Quote(x) + rest;
    QuoteRoundTrip(x, rest);
  }

  /** Applying a saved search restores exactly the term and filters that
      were serialised when it was saved. */
  lemma SearchRoundTrip(p: SearchParams)
    ensures ParseSearch(StringifySearch(p)) == Some(p)
  {
    var r3 := LocationKey + (Quote(p.filters.location) + Closing);
    var r2 := ExperienceKey + (Quote(p.filters.experience) + r3);
    var r1 := TypeKey + (Quote(p.filters.kind) + r2);
    FieldRoundTrip(TermKey, p.searchTerm, r1);
    FieldRoundTrip(TypeKey, p.filters.kind, r2);
    FieldRoundTrip(ExperienceKey, p.filters.experience, r3);
    FieldRoundTrip(LocationKey, p.filters.location, Closing);
  }
}
