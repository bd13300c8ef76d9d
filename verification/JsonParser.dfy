/** Reading JSON text as Python's `json.loads` does (sections 2 to 7 of RFC 8259, and its extensions). */
module JsonParser {
  import opened Utf8
  import opened Wrappers
  import opened CanonicalJson

  datatype Parse<+T> = Malformed | Got(value: T, rest: string)

  predicate IsSpace(c: char) { c in " \t\n\r" }

  function SkipSpace(s: string): (r: string)
    ensures |r| <= |s|
  {
    if s != "" && IsSpace(s[0]) then SkipSpace(s[1..]) else s
  }

  predicate StartsWith(s: string, prefix: string) {
    |prefix| <= |s| && s[..|prefix|] == prefix
  }

  /** `StartsWith`, first character first. */
  predicate Literal(s: string, word: string)
    requires word != ""
  {
    Next(s, word[0]) && StartsWith(s[1..], word[1..])
  }

  predicate Next(s: string, c: char) { s != "" && s[0] == c }

  // ---- Strings -------------------------------------------------------------

  function HexValue(c: char): Option<int> {
    if '0' <= c <= '9' then Some(c as int - '0' as int)
    else if 'a' <= c <= 'f' then Some(c as int - 'a' as int + 10)
    else if 'A' <= c <= 'F' then Some(c as int - 'A' as int + 10)
    else None
  }

  /** The code unit named by the four hexadecimal digits that `s` starts with. */
  function Hex4(s: string): Option<int> {
    if |s| < 4 then None
    else
      match (HexValue(s[0]), HexValue(s[1]), HexValue(s[2]), HexValue(s[3]))
      case (Some(a), Some(b), Some(c), Some(d)) => Some(((a * 16 + b) * 16 + c) * 16 + d)
      case _ => None
  }

  /**
   * The escape `\uXXXX` whose digits `s` starts with; two surrogates join into one
   * character.  A surrogate on its own is refused here: no text that holds one can
   * be written back as UTF-8.
   */
  function UnicodeEscape(s: string): (r: Parse<char>)
    ensures r.Got? ==> |r.rest| < |s|
  {
    match Hex4(s)
    case None => Malformed
    case Some(n) =>
      if 0xD800 <= n < 0xDC00 then
        if StartsWith(s[4..], [BACKSLASH, 'u']) then
          match Hex4(s[6..])
          case Some(m) =>
            if 0xDC00 <= m < 0xE000
            then Got((0x1_0000 + (n - 0xD800) * 0x400 + (m - 0xDC00)) as char, s[10..])
            else Malformed
          case None => Malformed
        else Malformed
      else if IsScalar(n) then Got(n as char, s[4..])
      else Malformed
  }

  /** One character of a string body, escaped or not. */
  function StringChar(s: string): (r: Parse<char>)
    requires s != ""
    ensures r.Got? ==> |r.rest| < |s|
  {
    if s[0] as int < 0x20 then Malformed
    else if s[0] != BACKSLASH then Got(s[0], s[1..])
    else if |s| == 1 then Malformed
    else
      match s[1]
      case '\"' => Got(QUOTE, s[2..])
      case '\\' => Got(BACKSLASH, s[2..])
      case '/' => Got('/', s[2..])
      case 'b' => Got(8 as char, s[2..])
      case 'f' => Got(12 as char, s[2..])
      case 'n' => Got('\n', s[2..])
      case 'r' => Got('\r', s[2..])
      case 't' => Got('\t', s[2..])
      case 'u' => UnicodeEscape(s[2..])
      case _ => Malformed
  }

  /** A string body up to and including its closing quote. */
  function StringBody(s: string): (r: Parse<string>)
    ensures r.Got? ==> |r.rest| < |s|
    decreases |s|
  {
    if s == "" then Malformed
    else if s[0] == QUOTE then Got("", s[1..])
    else
      match StringChar(s)
      case Malformed => Malformed
      case Got(c, rest) =>
        match StringBody(rest)
        case Malformed => Malformed
        case Got(text, end) => Got([c] + text, end)
  }

  // ---- Numbers -------------------------------------------------------------

  predicate IsDigit(c: char) { '0' <= c <= '9' }

  /** How many digits `s` starts with. */
  function DigitRun(s: string): (n: nat)
    ensures n <= |s| && (forall i | 0 <= i < n :: IsDigit(s[i])) && (n < |s| ==> !IsDigit(s[n]))
  {
    if s != "" && IsDigit(s[0]) then 1 + DigitRun(s[1..]) else 0
  }

  function DigitsValue(ds: string): nat
    requires forall d <- ds :: IsDigit(d)
  {
    if ds == "" then 0
    else
      var last := ds[|ds| - 1];
      assert IsDigit(last);
      DigitsValue(ds[..|ds| - 1]) * 10 + (last as int - '0' as int)
  }

  function FractionLength(s: string): (n: nat)
    ensures n <= |s|
  {
    if |s| >= 2 && s[0] == '.' && IsDigit(s[1]) then 1 + DigitRun(s[1..]) else 0
  }

  function ExponentLength(s: string): (n: nat)
    ensures n <= |s|
  {
    if s == "" || s[0] !in "eE" then 0
    else
      var sign: nat := if |s| > 1 && s[1] in "+-" then 1 else 0;
      var run := DigitRun(s[1..][sign..]);
      if run == 0 then 0 else 1 + sign + run
  }

  /** A number: an optional minus, an integer without leading zeros, a fraction, an exponent. */
  function NumberValue(s: string): (r: Parse<Json>)
    ensures r.Got? ==> |r.rest| < |s|
  {
    var sign: nat := if Next(s, '-') then 1 else 0;
    var run := DigitRun(s[sign..]);
    if run == 0 then Malformed
    else
      var whole := if s[sign] == '0' then 1 else run;
      var end := sign + whole;
      var fraction := FractionLength(s[end..]);
      var exponent := ExponentLength(s[end + fraction..]);
      if fraction + exponent > 0 then
        Got(Real(s[..end + fraction + exponent]), s[end + fraction + exponent..])
      else
        var n: int := DigitsValue(s[sign..end]);
        Got(Num(if sign == 1 then -n else n), s[end..])
  }

  // ---- Values --------------------------------------------------------------

  function Value(s: string): (r: Parse<Json>)
    ensures r.Got? ==> |r.rest| < |s|
    decreases |s|, 0
  {
    if s == "" then Malformed
    else if s[0] == QUOTE then
      match StringBody(s[1..])
      case Malformed => Malformed
      case Got(text, rest) => Got(Str(text), rest)
    else if s[0] == '{' then
      var inner := SkipSpace(s[1..]);
      if Next(inner, '}') then Got(Obj(map[]), inner[1..]) else Members(inner, map[])
    else if s[0] == '[' then
      var inner := SkipSpace(s[1..]);
      if Next(inner, ']') then Got(Arr([]), inner[1..])
      else
        match Items(inner)
        case Malformed => Malformed
        case Got(items, rest) => Got(Arr(items), rest)
    else if Literal(s, "null") then Got(Null, s[4..])
    else if Literal(s, "true") then Got(Bool(true), s[4..])
    else if Literal(s, "false") then Got(Bool(false), s[5..])
    else if Literal(s, "NaN") then Got(Real("NaN"), s[3..])
    else if Literal(s, "Infinity") then Got(Real("Infinity"), s[8..])
    else if Literal(s, "-Infinity") then Got(Real("-Infinity"), s[9..])
    else NumberValue(s)
  }

  /** One or more items and the closing bracket. */
  function Items(s: string): (r: Parse<seq<Json>>)
    ensures r.Got? ==> |r.rest| < |s|
    decreases |s|, 1
  {
    match Value(s)
    case Malformed => Malformed
    case Got(item, rest) =>
      var after := SkipSpace(rest);
      if Next(after, ']') then Got([item], after[1..])
      else if Next(after, ',') then
        match Items(SkipSpace(after[1..]))
        case Malformed => Malformed
        case Got(items, end) => Got([item] + items, end)
      else Malformed
  }

  /** One or more members and the closing brace; `seen` holds the members read before, a later duplicate wins. */
  function Members(s: string, seen: map<string, Json>): (r: Parse<Json>)
    ensures r.Got? ==> |r.rest| < |s|
    decreases |s|, 1
  {
    if !Next(s, QUOTE) then Malformed
    else
      match StringBody(s[1..])
      case Malformed => Malformed
      case Got(key, rest) =>
        var colon := SkipSpace(rest);
        if !Next(colon, ':') then Malformed
        else
          match Value(SkipSpace(colon[1..]))
          case Malformed => Malformed
          case Got(v, rest2) =>
            var after := SkipSpace(rest2);
            if Next(after, '}') then Got(Obj(seen[key := v]), after[1..])
            else if Next(after, ',') then Members(SkipSpace(after[1..]), seen[key := v])
            else Malformed
  }

  /** A whole text: one value with optional white space around it. */
  function Loads(s: string): Option<Json> {
    match Value(SkipSpace(s))
    case Malformed => None
    case Got(v, rest) => if SkipSpace(rest) == "" then Some(v) else None
  }
}
