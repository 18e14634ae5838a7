/** JSON trees, the text the serializer writes for them, and a JSON reader that inverts it. */
module JsonText {
  import opened Common
  import opened Decimal
  import Utf8View

  /** Numbers count millionths: `std::to_string(double)` writes six decimals. */
  datatype Json =
    | JNull
    | JBool(b: bool)
    | JNumber(millionths: int)
    | JString(s: string)
    | JArray(items: seq<Json>)
    | JObject(fields: seq<Field>)
  datatype Field = Field(key: string, value: Json)

  // ---- Strings ----

  const HEX := "0123456789abcdef"

  function EscapeChar(c: char): string {
    if c == '\\' then "\\\\"
    else if c == '"' then "\\\""
    else if c == 8 as char then "\\b"
    else if c == 12 as char then "\\f"
    else if c == '\n' then "\\n"
    else if c == '\r' then "\\r"
    else if c == '\t' then "\\t"
    else if c as int < 0x20 then "\\u00" + [HEX[c as int / 16], HEX[c as int % 16]]
    else [c]
  }

  function Escape(s: string): string {
    if s == "" then "" else EscapeChar(s[0]) + Escape(s[1..])
  }

  lemma {:induction false} EscapeAppend(s: string, c: char)
    ensures Escape(s + [c]) == Escape(s) + EscapeChar(c)
  {
    hide EscapeChar;
    if s == "" {
      assert [c][1..] == "";
    } else {
      EscapeAppend(s[1..], c);
      assert (s + [c])[1..] == s[1..] + [c];
    }
  }

  method EscapeJson(s: string) returns (out: string)
    ensures out == Escape(s)
  {
    hide EscapeChar;
    out := "";
    for i := 0 to |s|
      invariant out == Escape(s[..i])
    {
      EscapeAppend(s[..i], s[i]);
      assert s[..i + 1] == s[..i] + [s[i]];
      var piece := EscapeOne(s[i]);
      out := out + piece;
    }
    assert s[..|s|] == s;
  }

  /** The switch of the loop. */
  method EscapeOne(c: char) returns (piece: string)
    ensures piece == EscapeChar(c)
    ensures ' ' <= c && c != '"' && c != '\\' ==> piece == [c]
  {
    if c == '\\' {
      piece := "\\\\";
    } else if c == '"' {
      piece := "\\\"";
    } else if c as int == 8 {
      piece := "\\b";
    } else if c as int == 12 {
      piece := "\\f";
    } else if c as int == 10 {
      piece := "\\n";
    } else if c as int == 13 {
      piece := "\\r";
    } else if c as int == 9 {
      piece := "\\t";
    } else if c as int < 0x20 {
      var hex := "0123456789abcdef";
      piece := "\\u00" + [hex[c as int / 16], hex[c as int % 16]];
    } else {
      piece := [c];
    }
  }

  function HexValue(c: char): Option<nat> {
    if '0' <= c <= '9' then Some((c - '0') as nat)
    else if 'a' <= c <= 'f' then Some((c - 'a') as nat + 10)
    else if 'A' <= c <= 'F' then Some((c - 'A') as nat + 10)
    else None
  }

  /** The character an escape `\c` of section 7 of RFC 8259 stands for, other than \u. */
  function ShortEscape(c: char): Option<char> {
    if c == '"' || c == '\\' || c == '/' then Some(c)
    else if c == 'b' then Some(8 as char)
    else if c == 'f' then Some(12 as char)
    else if c == 'n' then Some('\n')
    else if c == 'r' then Some('\r')
    else if c == 't' then Some('\t')
    else None
  }

  /** Four hexadecimal digits after \u, read as the bytes of the codepoint they name. */
  function UnicodeEscape(s: string): Option<string>
    requires |s| == 4
  {
    match (HexValue(s[0]), HexValue(s[1]), HexValue(s[2]), HexValue(s[3]))
    case (Some(a), Some(b), Some(c), Some(d)) =>
      var code := a * 4096 + b * 256 + c * 16 + d;
      if Utf8View.IsScalar(code) then Some(Utf8View.Encode(code)) else None
    case _ => None
  }

  /** The reader takes hexadecimal digits of either case, the most significant first, and refuses what
      is no scalar value. */
  lemma UnicodeEscapeReads(digits: string, a: nat, b: nat, c: nat, d: nat)
    requires digits == "0123456789abcdef" || digits == "0123456789ABCDEF"
    requires a < 16 && b < 16 && c < 16 && d < 16
    ensures var code := a * 0x1000 + b * 0x100 + c * 0x10 + d;
            UnicodeEscape([digits[a], digits[b], digits[c], digits[d]]) ==
            if 0xD800 <= code <= 0xDFFF then None else Some(Utf8View.Encode(code))
  {
    HexOf(digits, a);
    HexOf(digits, b);
    HexOf(digits, c);
    HexOf(digits, d);
    hide HexValue;
  }

  lemma HexOf(digits: string, d: nat)
    requires digits == "0123456789abcdef" || digits == "0123456789ABCDEF"
    requires d < 16
    ensures HexValue(digits[d]) == Some(d)
  {
  }

  predicate Next(s: string, c: char) {
    s != "" && s[0] == c
  }

  datatype Parsed<+T> = Parsed(value: T, rest: string)

  /** The characters of a string up to its closing quote (section 7 of RFC 8259). */
  function ParseChars(s: string): (r: Option<Parsed<string>>)
    ensures r.Some? ==> |r.value.rest| < |s|
    decreases |s|
  {
    if s == "" then None
    else if s[0] == '"' then Some(Parsed("", s[1..]))
    else if s[0] != '\\' then
      if s[0] as int < 0x20 then None else Prepend([s[0]], ParseChars(s[1..]))
    else if |s| >= 6 && s[1] == 'u' then
      match UnicodeEscape(s[2..6])
      case Some(u) => Prepend(u, ParseChars(s[6..]))
      case None => None
    else if |s| >= 2 then
      match ShortEscape(s[1])
      case Some(c) => Prepend([c], ParseChars(s[2..]))
      case None => None
    else None
  }

  function Prepend(u: string, r: Option<Parsed<string>>): Option<Parsed<string>> {
    match r
    case Some(p) => Some(Parsed(u + p.value, p.rest))
    case None => None
  }

  lemma ParseEscapedChar(c: char, tail: string)
    ensures ParseChars(EscapeChar(c) + tail) == Prepend([c], ParseChars(tail))
  {
    var e := EscapeChar(c);
    var s := e + tail;
    if |e| == 6 {
      assert s[6..] == tail;
      var n := c as int;
      assert s[2..6] == ['0', '0', HEX[n / 16], HEX[n % 16]];
      HexDigit(n / 16);
      HexDigit(n % 16);
      assert n == n / 16 * 16 + n % 16;
      assert UnicodeEscape(s[2..6]) == Some([c]);
    } else if |e| == 2 {
      assert s[2..] == tail;
    } else {
      assert s[1..] == tail;
    }
  }

  lemma HexDigit(d: nat)
    requires d < 16
    ensures HexValue(HEX[d]) == Some(d)
  {
  }

  lemma {:induction false} ParseEscaped(s: string, tail: string)
    ensures ParseChars(Escape(s) + "\"" + tail) == Some(Parsed(s, tail))
  {
    hide EscapeChar;
    if s == "" {
      assert Escape(s) + "\"" + tail == "\"" + tail;
    } else {
      ParseEscaped(s[1..], tail);
      ParseEscapedChar(s[0], Escape(s[1..]) + "\"" + tail);
      assert Escape(s) + "\"" + tail == EscapeChar(s[0]) + (Escape(s[1..]) + "\"" + tail);
      assert s == [s[0]] + s[1..];
    }
  }

  // ---- Numbers with six decimals ----

  const MILLION := 1_000_000

  function FixedDigits(n: nat, k: nat): (s: string)
    ensures |s| == k && AllDigits(s)
  {
    if k == 0 then "" else FixedDigits(n / 10, k - 1) + [Digit(n % 10)]
  }

  lemma {:induction false} ValueOfFixedDigits(n: nat, k: nat)
    requires n < Pow10(k)
    ensures Value(FixedDigits(n, k)) == n
  {
    if k > 0 {
      ValueOfFixedDigits(n / 10, k - 1);
      assert FixedDigits(n, k)[..k - 1] == FixedDigits(n / 10, k - 1);
    }
  }

  function PrintMagnitude(n: nat): string {
    Dec(n / MILLION) + "." + FixedDigits(n % MILLION, 6)
  }

  function PrintNumber(m: int): string {
    if m < 0 then "-" + PrintMagnitude(-m) else PrintMagnitude(m)
  }

  /** A number is its sign, its whole part, a point, and its millionths in six digits. */
  lemma NumberHasSixDecimals(m: int)
    ensures var n := if m < 0 then -m else m;
            exists frac :: |frac| == 6 && AllDigits(frac) && Value(frac) == n % 1_000_000
                           && PrintNumber(m) == (if m < 0 then "-" else "") + (Dec(n / 1_000_000) + "." + frac)
  {
    hide Dec, FixedDigits, Value;
    var n := if m < 0 then -m else m;
    SixDigitsSuffice(n);
    ValueOfFixedDigits(n % MILLION, 6);
    var frac := FixedDigits(n % 1_000_000, 6);
    assert "" + PrintMagnitude(n) == PrintMagnitude(n);
    assert Value(frac) == n % 1_000_000;
  }

  /** The number of leading digits. */
  function DigitRun(s: string): (k: nat)
    ensures k <= |s| && AllDigits(s[..k])
    ensures k < |s| ==> !IsDigit(s[k])
  {
    if s == "" || !IsDigit(s[0]) then 0 else 1 + DigitRun(s[1..])
  }

  /** Digits, a point and exactly six more digits. */
  function ParseMagnitude(s: string): (r: Option<Parsed<nat>>)
    ensures r.Some? ==> |r.value.rest| < |s|
  {
    var k := DigitRun(s);
    if k == 0 || !Next(s[k..], '.') then None
    else
      var frac := s[k..][1..];
      if DigitRun(frac) < 6 then None else Some(Parsed(Value(s[..k]) * MILLION + SixDigits(frac), frac[6..]))
  }

  function SixDigits(s: string): nat
    requires DigitRun(s) >= 6
  {
    assert AllDigits(s[..DigitRun(s)][..6]) && s[..DigitRun(s)][..6] == s[..6];
    Value(s[..6])
  }

  function ParseNumber(s: string): (r: Option<Parsed<int>>)
    ensures r.Some? ==> |r.value.rest| < |s|
  {
    if s != "" && s[0] == '-' then
      match ParseMagnitude(s[1..])
      case Some(p) =>
        var magnitude: int := p.value;
        Some(Parsed(0 - magnitude, p.rest))
      case None => None
    else
      match ParseMagnitude(s)
      case Some(p) => Some(Parsed(p.value, p.rest))
      case None => None
  }

  lemma {:induction false} DigitRunOf(s: string, tail: string)
    requires AllDigits(s)
    ensures DigitRun(s + tail) >= |s|
    ensures tail == "" || !IsDigit(tail[0]) ==> DigitRun(s + tail) == |s|
  {
    if s == "" {
      assert s + tail == tail;
    } else {
      DigitRunOf(s[1..], tail);
      assert (s + tail)[1..] == s[1..] + tail;
    }
  }

  lemma MagnitudeSplits(head: string, frac: string)
    requires AllDigits(head) && head != "" && DigitRun(frac) >= 6
    ensures ParseMagnitude(head + ("." + frac)) == Some(Parsed(Value(head) * MILLION + SixDigits(frac), frac[6..]))
  {
    hide DigitRun, Value, SixDigits;
    var after := "." + frac;
    DigitRunOf(head, after);
    assert (head + after)[..|head|] == head && (head + after)[|head|..] == after && after[1..] == frac;
  }

  lemma SixDigitsOf(frac: string, tail: string)
    requires AllDigits(frac) && |frac| == 6
    ensures DigitRun(frac + tail) >= 6 && SixDigits(frac + tail) == Value(frac) && (frac + tail)[6..] == tail
  {
    hide DigitRun, Value;
    DigitRunOf(frac, tail);
    assert (frac + tail)[..6] == frac;
  }

  lemma ParsePrintedMagnitude(n: nat, tail: string)
    ensures ParseMagnitude(PrintMagnitude(n) + tail) == Some(Parsed(n, tail))
  {
    hide Dec, FixedDigits, Value, ParseMagnitude, SixDigits, AllDigits, DigitRun;
    var head, frac := Dec(n / MILLION), FixedDigits(n % MILLION, 6);
    SixDigitsOf(frac, tail);
    MagnitudeSplits(head, frac + tail);
    assert PrintMagnitude(n) + tail == head + ("." + (frac + tail));
    ValueOfDec(n / MILLION);
    SixDigitsSuffice(n);
    ValueOfFixedDigits(n % MILLION, 6);
  }

  lemma SixDigitsSuffice(n: nat)
    ensures n % MILLION < Pow10(6)
  {
    assert Pow10(3) == 1000;
  }

  lemma MagnitudeStart(n: nat)
    ensures PrintMagnitude(n) != "" && IsDigit(PrintMagnitude(n)[0])
  {
    hide Dec, FixedDigits;
  }

  lemma ParsePrintedNumber(m: int, tail: string)
    ensures ParseNumber(PrintNumber(m) + tail) == Some(Parsed(m, tail))
    ensures PrintNumber(m) != "" && (PrintNumber(m)[0] == '-' || IsDigit(PrintNumber(m)[0]))
  {
    hide ParseMagnitude, PrintMagnitude;
    if m < 0 {
      ParsePrintedMagnitude(-m, tail);
      assert (PrintNumber(m) + tail)[1..] == PrintMagnitude(-m) + tail;
    } else {
      ParsePrintedMagnitude(m, tail);
      MagnitudeStart(m);
    }
  }

  // ---- Values (sections 3, 4 and 5 of RFC 8259, without insignificant whitespace) ----

  function Quoted(s: string): string {
    "\"" + Escape(s) + "\""
  }

  function Print(j: Json): string
    decreases j, 0
  {
    match j
    case JNull => "null"
    case JBool(b) => if b then "true" else "false"
    case JNumber(m) => PrintNumber(m)
    case JString(s) => Quoted(s)
    case JArray(items) => "[" + PrintItems(items) + "]"
    case JObject(fields) => "{" + PrintFields(fields) + "}"
  }

  function PrintItems(items: seq<Json>): string
    decreases items, 1
  {
    if items == [] then ""
    else if |items| == 1 then Print(items[0])
    else Print(items[0]) + "," + PrintItems(items[1..])
  }

  function PrintField(f: Field): string
    decreases f, 1
  {
    Quoted(f.key) + ":" + Print(f.value)
  }

  function PrintFields(fields: seq<Field>): string
    decreases fields, 2
  {
    if fields == [] then ""
    else if |fields| == 1 then PrintField(fields[0])
    else PrintField(fields[0]) + "," + PrintFields(fields[1..])
  }

  function Word(s: string, w: string, j: Json): Option<Parsed<Json>> {
    if w <= s then Some(Parsed(j, s[|w|..])) else None
  }

  function ParseValue(s: string): (r: Option<Parsed<Json>>)
    ensures r.Some? ==> |r.value.rest| < |s|
    decreases |s|, 0
  {
    if s == "" then None
    else if s[0] == 'n' then Word(s, "null", JNull)
    else if s[0] == 't' then Word(s, "true", JBool(true))
    else if s[0] == 'f' then Word(s, "false", JBool(false))
    else if s[0] == '"' then
      match ParseChars(s[1..])
      case Some(p) => Some(Parsed(JString(p.value), p.rest))
      case None => None
    else if s[0] == '[' then
      if Next(s[1..], ']') then Some(Parsed(JArray([]), s[2..]))
      else
        match ParseItems(s[1..])
        case Some(p) => Some(Parsed(JArray(p.value), p.rest))
        case None => None
    else if s[0] == '{' then
      if Next(s[1..], '}') then Some(Parsed(JObject([]), s[2..]))
      else
        match ParseFields(s[1..])
        case Some(p) => Some(Parsed(JObject(p.value), p.rest))
        case None => None
    else
      match ParseNumber(s)
      case Some(p) => Some(Parsed(JNumber(p.value), p.rest))
      case None => None
  }

  /** One or more values separated by commas, and the closing bracket. */
  function ParseItems(s: string): (r: Option<Parsed<seq<Json>>>)
    ensures r.Some? ==> |r.value.rest| < |s|
    decreases |s|, 1
  {
    match ParseValue(s)
    case None => None
    case Some(Parsed(v, rest)) =>
      if Next(rest, ']') then Some(Parsed([v], rest[1..]))
      else if Next(rest, ',') then
        match ParseItems(rest[1..])
        case Some(p) => Some(Parsed([v] + p.value, p.rest))
        case None => None
      else None
  }

  function ParseField(s: string): (r: Option<Parsed<Field>>)
    ensures r.Some? ==> |r.value.rest| < |s|
    decreases |s|, 1
  {
    if !Next(s, '"') then None
    else
      match ParseChars(s[1..])
      case None => None
      case Some(Parsed(key, rest)) =>
        if !Next(rest, ':') then None
        else
          match ParseValue(rest[1..])
          case Some(p) => Some(Parsed(Field(key, p.value), p.rest))
          case None => None
  }

  function ParseFields(s: string): (r: Option<Parsed<seq<Field>>>)
    ensures r.Some? ==> |r.value.rest| < |s|
    decreases |s|, 2
  {
    match ParseField(s)
    case None => None
    case Some(Parsed(f, rest)) =>
      if Next(rest, '}') then Some(Parsed([f], rest[1..]))
      else if Next(rest, ',') then
        match ParseFields(rest[1..])
        case Some(p) => Some(Parsed([f] + p.value, p.rest))
        case None => None
      else None
  }

  // ---- Reading inverts printing ----

  lemma PrintStart(j: Json)
    ensures Print(j) != "" && Print(j)[0] != ']'
  {
    if j.JNumber? {
      ParsePrintedNumber(j.millionths, "");
    }
  }

  lemma ValueOfString(v: string, tail: string)
    ensures ParseValue(Quoted(v) + tail) == Some(Parsed(JString(v), tail))
  {
    hide ParseChars, ParseItems, ParseFields, ParseNumber, Escape;
    var s := Quoted(v) + tail;
    ParseEscaped(v, tail);
    assert s[1..] == Escape(v) + "\"" + tail;
  }

  lemma ValueOfNumber(m: int, tail: string)
    ensures ParseValue(PrintNumber(m) + tail) == Some(Parsed(JNumber(m), tail))
  {
    hide ParseChars, ParseItems, ParseFields, ParseNumber, PrintNumber;
    ParsePrintedNumber(m, tail);
    assert (PrintNumber(m) + tail)[0] == PrintNumber(m)[0];
  }

  lemma ValueOfWord(w: string, tail: string)
    requires w in {"null", "true", "false"}
    ensures ParseValue(w + tail) ==
            Some(Parsed(if w == "null" then JNull else JBool(w == "true"), tail))
  {
    hide ParseChars, ParseItems, ParseFields, ParseNumber;
    assert (w + tail)[|w|..] == tail;
  }

  lemma {:induction false} ParsePrinted(j: Json, tail: string)
    ensures ParseValue(Print(j) + tail) == Some(Parsed(j, tail))
    decreases j, 0
  {
    hide ParseValue, PrintNumber, PrintItems, PrintFields, Quoted;
    match j
    case JNull =>
      ValueOfWord("null", tail);
    case JBool(b) =>
      ValueOfWord(if b then "true" else "false", tail);
    case JNumber(m) =>
      ValueOfNumber(m, tail);
    case JString(v) =>
      ValueOfString(v, tail);
    case JArray(items) =>
      ParsePrintedArray(items, tail);
      assert Print(j) + tail == "[" + (PrintItems(items) + "]" + tail);
    case JObject(fields) =>
      ParsePrintedObject(fields, tail);
      assert Print(j) + tail == "{" + (PrintFields(fields) + "}" + tail);
  }

  lemma {:induction false} ParsePrintedArray(items: seq<Json>, tail: string)
    ensures ParseValue("[" + (PrintItems(items) + "]" + tail)) == Some(Parsed(JArray(items), tail))
    decreases items, 2
  {
    hide ParseItems, PrintItems;
    var body := PrintItems(items) + "]" + tail;
    assert ("[" + body)[1..] == body;
    if items == [] {
      EmptyLists();
      assert ("[" + body)[2..] == tail;
    } else {
      ParsePrintedItems(items, tail);
      ItemsStart(items);
    }
  }

  lemma EmptyLists()
    ensures PrintItems([]) == "" && PrintFields([]) == ""
  {
  }

  lemma ItemsStart(items: seq<Json>)
    requires items != []
    ensures PrintItems(items) != "" && PrintItems(items)[0] != ']'
  {
    PrintStart(items[0]);
  }

  lemma FieldsStart(fields: seq<Field>)
    requires fields != []
    ensures PrintFields(fields) != "" && PrintFields(fields)[0] == '"'
  {
  }

  lemma {:induction false} ParsePrintedItems(items: seq<Json>, tail: string)
    requires items != []
    ensures ParseItems(PrintItems(items) + "]" + tail) == Some(Parsed(items, tail))
    decreases items, 1
  {
    hide ParseValue, Print;
    var s := PrintItems(items) + "]" + tail;
    assert items == [items[0]] + items[1..];
    if |items| == 1 {
      assert items == [items[0]];
      ParsePrinted(items[0], "]" + tail);
      assert s == Print(items[0]) + ("]" + tail);
      assert ("]" + tail)[1..] == tail;
    } else {
      var more := PrintItems(items[1..]) + "]" + tail;
      ParsePrinted(items[0], "," + more);
      assert s == Print(items[0]) + ("," + more);
      assert ("," + more)[1..] == more;
      ParsePrintedItems(items[1..], tail);
    }
  }

  lemma {:induction false} ParsePrintedField(f: Field, tail: string)
    ensures ParseField(PrintField(f) + tail) == Some(Parsed(f, tail))
    decreases f, 1
  {
    hide ParseValue, Print, ParseChars, Escape;
    var s := PrintField(f) + tail;
    var afterKey := ":" + Print(f.value) + tail;
    ParseEscaped(f.key, afterKey);
    assert s[1..] == Escape(f.key) + "\"" + afterKey;
    assert afterKey[1..] == Print(f.value) + tail;
    ParsePrinted(f.value, tail);
  }

  lemma {:induction false} ParsePrintedFields(fields: seq<Field>, tail: string)
    requires fields != []
    ensures ParseFields(PrintFields(fields) + "}" + tail) == Some(Parsed(fields, tail))
    decreases fields, 1
  {
    hide ParseField, PrintField;
    var s := PrintFields(fields) + "}" + tail;
    assert fields == [fields[0]] + fields[1..];
    if |fields| == 1 {
      assert fields == [fields[0]];
      ParsePrintedField(fields[0], "}" + tail);
      assert s == PrintField(fields[0]) + ("}" + tail);
      assert ("}" + tail)[1..] == tail;
    } else {
      var more := PrintFields(fields[1..]) + "}" + tail;
      ParsePrintedField(fields[0], "," + more);
      assert s == PrintField(fields[0]) + ("," + more);
      assert ("," + more)[1..] == more;
      ParsePrintedFields(fields[1..], tail);
    }
  }

  lemma {:induction false} ParsePrintedObject(fields: seq<Field>, tail: string)
    ensures ParseValue("{" + (PrintFields(fields) + "}" + tail)) == Some(Parsed(JObject(fields), tail))
    decreases fields, 2
  {
    hide ParseFields, PrintFields;
    var body := PrintFields(fields) + "}" + tail;
    assert ("{" + body)[1..] == body;
    if fields == [] {
      EmptyLists();
      assert ("{" + body)[2..] == tail;
    } else {
      ParsePrintedFields(fields, tail);
      FieldsStart(fields);
    }
  }
}
