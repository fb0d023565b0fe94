/**
 * JSON text as Python's `json.dumps` writes it with its default settings:
 * `ensure_ascii` on, item separator ", " and key separator ": ", object
 * members in insertion order. The string decoder beside it reads JSON string
 * contents back (section 7 of RFC 8259) and is the encoder's inverse.
 */
module JsonText {
  import opened Wrappers
  import opened PyStr

  /** A JSON document; objects keep their members in order. */
  datatype Json =
    | JNull
    | JBool(b: bool)
    | JInt(i: int)
    | JStr(s: string)
    | JArr(items: seq<Json>)
    | JObj(members: seq<Member>)

  datatype Member = Member(key: string, value: Json)

  // ------------------------------------------------------------ strings

  /** Four lower-case hexadecimal digits, as `format(n, "04x")`. */
  function Hex4(n: nat): (h: string)
    requires n < 0x10000
    ensures |h| == 4 && Printable(h)
  {
    Hex2(n / 256) + Hex2(n % 256)
  }

  /** One character as `json.dumps` writes it inside a string: the quote and
    * the backslash escaped, the five short escapes, printable ASCII as is,
    * anything else as `\uXXXX` (a surrogate pair above U+FFFF). */
  function EscapeChar(c: char): (e: string)
    ensures Printable(e) && |e| >= 1
  {
    if c == '"' then "\\\""
    else if c == '\\' then "\\\\"
    else if c == '\n' then "\\n"
    else if c == '\r' then "\\r"
    else if c == '\t' then "\\t"
    else if c == '\U{8}' then "\\b"
    else if c == '\U{C}' then "\\f"
    else if ' ' <= c <= '~' then [c]
    else if (c as int) < 0x10000 then "\\u" + Hex4(c as int)
    else PairEscape(High(c), Low(c))
  }

  /** The high and the low surrogate of a character beyond the Basic
    * Multilingual Plane. */
  function High(c: char): (h: nat)
    requires (c as int) >= 0x10000
    ensures 0xD800 <= h < 0xDC00
  {
    0xD800 + (c as int - 0x10000) / 1024
  }

  function Low(c: char): (l: nat)
    requires (c as int) >= 0x10000
    ensures 0xDC00 <= l < 0xE000
  {
    0xDC00 + (c as int - 0x10000) % 1024
  }

  /** The two `\\u` escapes of a surrogate pair. */
  function PairEscape(hi: nat, lo: nat): (e: string)
    requires hi < 0x10000 && lo < 0x10000
    ensures |e| == 12 && Printable(e)
  {
    "\\u" + Hex4(hi) + "\\u" + Hex4(lo)
  }

  function EscapeString(s: string): (e: string)
    ensures Printable(e)
    ensures |e| >= |s|
  {
    if s == [] then [] else EscapeChar(s[0]) + EscapeString(s[1..])
  }

  /** A JSON string literal. */
  function Quote(s: string): (q: string)
    ensures Printable(q)
  {
    "\"" + EscapeString(s) + "\""
  }

  // ------------------------------------------------------------ documents

  /** `json.dumps(j)`. The output is printable ASCII, so it holds no line break. */
  function Dumps(j: Json): (t: string)
    ensures Printable(t) && |t| >= 1
    decreases j
  {
    match j
    case JNull => "null"
    case JBool(b) => if b then "true" else "false"
    case JInt(i) => IntToStringPrintable(i); IntToString(i)
    case JStr(s) => Quote(s)
    case JArr(items) => "[" + DumpsItems(items) + "]"
    case JObj(members) => "{" + DumpsMembers(members) + "}"
  }

  function DumpsItems(items: seq<Json>): (t: string)
    ensures Printable(t)
    decreases items
  {
    if items == [] then ""
    else if |items| == 1 then Dumps(items[0])
    else Dumps(items[0]) + ", " + DumpsItems(items[1..])
  }

  function DumpsMembers(members: seq<Member>): (t: string)
    ensures Printable(t)
    decreases members
  {
    if members == [] then ""
    else if |members| == 1 then Quote(members[0].key) + ": " + Dumps(members[0].value)
    else Quote(members[0].key) + ": " + Dumps(members[0].value) + ", " + DumpsMembers(members[1..])
  }

  lemma IntToStringPrintable(i: int)
    ensures Printable(IntToString(i))
  {
    NatDigitsPrintable(if i < 0 then -i else i);
  }

  lemma {:induction false} NatDigitsPrintable(n: nat)
    ensures forall k :: 0 <= k < |NatToDigits(n)| ==> '0' <= NatToDigits(n)[k] <= '9'
    decreases n
  {
    if n >= 10 {
      NatDigitsPrintable(n / 10);
    }
  }

  /** A printable text has no line feed and no carriage return. */
  lemma PrintableHasNoLineBreak(s: string)
    requires Printable(s)
    ensures forall i :: 0 <= i < |s| ==> s[i] != '\n' && s[i] != '\r'
  { }

  // ------------------------------------------------------------ accessors

  /** The value of the first member called `key`, if `j` is an object. */
  function Field(j: Json, key: string): (r: Option<Json>)
    ensures r.Some? ==> j.JObj? && exists i :: 0 <= i < |j.members| && j.members[i] == Member(key, r.value)
    ensures j.JObj? && r.None? ==> forall i :: 0 <= i < |j.members| ==> j.members[i].key != key
  {
    if !j.JObj? then None else FieldOf(j.members, key)
  }

  function FieldOf(members: seq<Member>, key: string): (r: Option<Json>)
    ensures r.Some? ==> exists i :: 0 <= i < |members| && members[i] == Member(key, r.value)
    ensures r.None? ==> forall i :: 0 <= i < |members| ==> members[i].key != key
  {
    if members == [] then None
    else if members[0].key == key then Some(members[0].value)
    else
      var r := FieldOf(members[1..], key);
      assert r.Some? ==> members[1..][0..] == members[1..];
      r
  }

  /** The first member called `key` is the one found. */
  lemma {:induction false} FieldAt(members: seq<Member>, i: nat, key: string)
    requires i < |members| && members[i].key == key
    requires forall j :: 0 <= j < i ==> members[j].key != key
    ensures FieldOf(members, key) == Some(members[i].value)
    decreases i
  {
    if i > 0 {
      FieldAt(members[1..], i - 1, key);
    }
  }

  /** The member names of an object, in order. */
  function Keys(j: Json): seq<string> {
    if j.JObj? then seq(|j.members|, i requires 0 <= i < |j.members| => j.members[i].key) else []
  }

  // ------------------------------------------------------- string decoding

  function HexValue(c: char): Option<nat> {
    if '0' <= c <= '9' then Some(c as int - '0' as int)
    else if 'a' <= c <= 'f' then Some(c as int - 'a' as int + 10)
    else if 'A' <= c <= 'F' then Some(c as int - 'A' as int + 10)
    else None
  }

  function ParseHex2(h: string): (r: Option<nat>)
    requires |h| == 2
    ensures r.Some? ==> r.value < 0x100
  {
    match (HexValue(h[0]), HexValue(h[1]))
    case (Some(a), Some(b)) => if a < 16 && b < 16 then Some(a * 16 + b) else None
    case _ => None
  }

  function ParseHex4(h: string): (r: Option<nat>)
    requires |h| == 4
    ensures r.Some? ==> r.value < 0x10000
  {
    match (ParseHex2(h[..2]), ParseHex2(h[2..]))
    case (Some(a), Some(b)) => Some(a * 256 + b)
    case _ => None
  }

  function Prepend(c: char, r: Option<string>): Option<string> {
    match r
    case None => None
    case Some(s) => Some([c] + s)
  }

  /** The first character a JSON string body stands for, and how many
    * characters of the body it takes; `None` when the body starts with an
    * unescaped quote or control character, an unknown escape, a bad `\\u`
    * escape or an unpaired surrogate. */
  function Next(t: string): (r: Option<(char, nat)>)
    requires t != []
    ensures r.Some? ==> 1 <= r.value.1 <= |t|
  {
    if t[0] == '"' || t[0] < ' ' then None
    else if t[0] != '\\' then Some((t[0], 1))
    else if |t| < 2 then None
    else if ShortEscape(t[1]).Some? then Some((ShortEscape(t[1]).value, 2))
    else if t[1] != 'u' then None
    else UnicodeEscape(t)
  }

  /** The characters a JSON string body stands for; `None` when it is malformed. */
  function Unescape(t: string): Option<string>
    decreases |t|
  {
    if t == [] then Some([])
    else match Next(t)
      case None => None
      case Some(d) => Prepend(d.0, Unescape(t[d.1..]))
  }

  /** The character a two-character escape `\\e` stands for. */
  function ShortEscape(e: char): Option<char> {
    if e == '"' then Some('"')
    else if e == '\\' then Some('\\')
    else if e == '/' then Some('/')
    else if e == 'b' then Some('\U{8}')
    else if e == 'f' then Some('\U{C}')
    else if e == 'n' then Some('\n')
    else if e == 'r' then Some('\r')
    else if e == 't' then Some('\t')
    else None
  }

  /** A `\\uXXXX` escape, or a surrogate pair of two, at the start of `t`: the
    * character and how many characters it takes. */
  function UnicodeEscape(t: string): (r: Option<(char, nat)>)
    ensures r.Some? ==> 6 <= r.value.1 <= |t|
  {
    if |t| < 6 then None
    else match ParseHex4(t[2..6])
      case None => None
      case Some(hi) =>
        if hi < 0xD800 || 0xE000 <= hi then Some((hi as char, 6))
        else if 0xDC00 <= hi || |t| < 12 || t[6..8] != "\\u" then None
        else match ParseHex4(t[8..12])
          case None => None
          case Some(lo) =>
            if 0xDC00 <= lo < 0xE000
            then Some(((0x10000 + (hi - 0xD800) * 1024 + (lo - 0xDC00)) as char, 12))
            else None
  }

  lemma HexDigitValue(d: nat)
    requires d < 16
    ensures HexValue(HexDigit(d)) == Some(d)
  { }

  lemma Hex2RoundTrip(n: nat)
    requires n < 0x100
    ensures ParseHex2(Hex2(n)) == Some(n)
  {
    HexDigitValue(n / 16);
    HexDigitValue(n % 16);
  }

  lemma Hex4RoundTrip(n: nat)
    requires n < 0x10000
    ensures ParseHex4(Hex4(n)) == Some(n)
  {
    var h := Hex4(n);
    assert h[..2] == Hex2(n / 256) && h[2..] == Hex2(n % 256);
    Hex2RoundTrip(n / 256);
    Hex2RoundTrip(n % 256);
  }

  lemma NextShort(c: char, u: string)
    requires c == '"' || c == '\\' || c == '\n' || c == '\r' || c == '\t' || c == '\U{8}' || c == '\U{C}'
    ensures Next(EscapeChar(c) + u) == Some((c, 2)) && |EscapeChar(c)| == 2
  {
    var t := EscapeChar(c) + u;
    assert |EscapeChar(c)| == 2 && t[0] == '\\' && t[1] == EscapeChar(c)[1];
  }

  lemma NextPlain(c: char, u: string)
    requires ' ' <= c <= '~' && c != '"' && c != '\\'
    ensures Next(EscapeChar(c) + u) == Some((c, 1)) && |EscapeChar(c)| == 1
  {
    var t := EscapeChar(c) + u;
    assert t[0] == c;
  }

  lemma BmpDecodes(c: char, t: string)
    requires (c as int) < 0x10000
    requires |t| >= 6 && t[2..6] == Hex4(c as int)
    ensures UnicodeEscape(t) == Some((c, 6))
  {
    Hex4RoundTrip(c as int);
  }

  lemma NextBmp(c: char, u: string)
    requires !(' ' <= c <= '~') && c != '\n' && c != '\r' && c != '\t' && c != '\U{8}' && c != '\U{C}'
    requires (c as int) < 0x10000
    ensures Next(EscapeChar(c) + u) == Some((c, 6)) && |EscapeChar(c)| == 6
  {
    var t := EscapeChar(c) + u;
    assert EscapeChar(c) == "\\u" + Hex4(c as int);
    assert t[0] == '\\' && t[1] == 'u';
    assert t[2..6] == Hex4(c as int);
    BmpDecodes(c, t);
  }

  /** The surrogates recombine to the character. */
  lemma Recombine(c: char)
    requires (c as int) >= 0x10000
    ensures (0x10000 + (High(c) - 0xD800) * 1024 + (Low(c) - 0xDC00)) as char == c
  {
    var n := c as int - 0x10000;
    assert (n / 1024) * 1024 + n % 1024 == n;
  }

  /** A high and a low surrogate escape, read back. */
  lemma SurrogateEscapes(hi: int, lo: int, t: string)
    requires 0xD800 <= hi < 0xDC00 && 0xDC00 <= lo < 0xE000
    requires |t| >= 12 && t[2..6] == Hex4(hi) && t[6..8] == "\\u" && t[8..12] == Hex4(lo)
    ensures UnicodeEscape(t) == Some(((0x10000 + (hi - 0xD800) * 1024 + (lo - 0xDC00)) as char, 12))
  {
    assert ParseHex4(t[2..6]) == Some(hi) by { Hex4RoundTrip(hi); }
    assert ParseHex4(t[8..12]) == Some(lo) by { Hex4RoundTrip(lo); }
  }

  lemma PairSlices(h1: string, h2: string, u: string)
    requires |h1| == 4 && |h2| == 4
    ensures var t := "\\u" + h1 + "\\u" + h2 + u;
      |t| >= 12 && t[0] == '\\' && t[1] == 'u' && t[2..6] == h1 && t[6..8] == "\\u" && t[8..12] == h2
      && t[12..] == u
  { }

  /** A surrogate-pair escape at the front of the text is read as one step. */
  lemma PairFront(hi: nat, lo: nat, u: string)
    requires 0xD800 <= hi < 0xDC00 && 0xDC00 <= lo < 0xE000
    ensures Next(PairEscape(hi, lo) + u) == Some(((0x10000 + (hi - 0xD800) * 1024 + (lo - 0xDC00)) as char, 12))
  {
    var t := PairEscape(hi, lo) + u;
    assert t == "\\u" + Hex4(hi) + "\\u" + Hex4(lo) + u;
    PairSlices(Hex4(hi), Hex4(lo), u);
    SurrogateEscapes(hi, lo, t);
  }

  lemma NextAstral(c: char, u: string)
    requires (c as int) >= 0x10000
    ensures Next(EscapeChar(c) + u) == Some((c, 12)) && |EscapeChar(c)| == 12
  {
    assert EscapeChar(c) == PairEscape(High(c), Low(c));
    PairFront(High(c), Low(c), u);
    Recombine(c);
  }

  /** One decoding step. */
  lemma UnescapeStep(t: string, ch: char, k: nat)
    requires t != [] && Next(t) == Some((ch, k))
    ensures Unescape(t) == Prepend(ch, Unescape(t[k..]))
  { }

  /** Decoding an escaped character followed by more text gives the character
    * followed by the decoding of that text. */
  lemma UnescapeChar(c: char, u: string)
    ensures Unescape(EscapeChar(c) + u) == Prepend(c, Unescape(u))
  {
    if c == '"' || c == '\\' || c == '\n' || c == '\r' || c == '\t' || c == '\U{8}' || c == '\U{C}' {
      NextShort(c, u);
    } else if ' ' <= c <= '~' {
      NextPlain(c, u);
    } else if (c as int) < 0x10000 {
      NextBmp(c, u);
    } else {
      NextAstral(c, u);
    }
    var t := EscapeChar(c) + u;
    assert t[|EscapeChar(c)|..] == u;
    UnescapeStep(t, c, |EscapeChar(c)|);
  }

  /** The string decoder undoes the encoder: `json.loads(json.dumps(s)) == s`
    * for the contents of a string literal. */
  lemma {:induction false} UnescapeEscape(s: string)
    ensures Unescape(EscapeString(s)) == Some(s)
    decreases |s|
  {
    if s != [] {
      UnescapeEscape(s[1..]);
      UnescapeChar(s[0], EscapeString(s[1..]));
      assert [s[0]] + s[1..] == s;
    }
  }
}
