/**
 * Reading one JSON value from the front of a text, by the grammar of RFC 8259. Numbers keep their exact
 * decimal value, a repeated name keeps its last value, and whatever follows the value is handed back.
 */
module JsonText {
  import opened Common
  import opened Decimal

  datatype Json =
    | Null
    | Bool(b: bool)
    | Number(number: real)
    | Text(text: string)
    | List(items: seq<Json>)
    | Object(members: map<string, Json>)

  /** What was found at the front of a text, and the text after it. */
  datatype Found<+T> = Found(value: T, rest: string)

  // ---------------------------------------------------------------- section 2: structural characters

  predicate IsSpace(c: char) {
    c == ' ' || c == '\t' || c == '\n' || c == '\r'
  }

  function SkipSpace(s: string): (rest: string)
    ensures |rest| <= |s|
    ensures rest != [] ==> !IsSpace(rest[0])
  {
    if s != [] && IsSpace(s[0]) then SkipSpace(s[1..]) else s
  }

  predicate Starts(s: string, c: char) {
    s != [] && s[0] == c
  }

  // ---------------------------------------------------------------- section 6: numbers

  /** How many digits the text starts with. */
  function Run(s: string): (n: nat)
    ensures n <= |s| && (n < |s| ==> !IsDigit(s[n]))
    ensures forall i :: 0 <= i < n ==> IsDigit(s[i])
  {
    if s != [] && IsDigit(s[0]) then 1 + Run(s[1..]) else 0
  }

  function Pow10(n: nat): (p: real)
    ensures p > 0.0
  {
    if n == 0 then 1.0 else 10.0 * Pow10(n - 1)
  }

  function Scaled(x: real, e: int): real {
    if e >= 0 then x * Pow10(e) else x / Pow10(-e)
  }

  /** A single zero, or digits that do not start with one. */
  function ReadInt(s: string): (r: Option<Found<nat>>)
    ensures r.Some? ==> |r.value.rest| < |s|
  {
    var n := Run(s);
    if n == 0 then None
    else if s[0] == '0' then Some(Found(0, s[1..]))
    else Some(Found(Value(s[..n]), s[n..]))
  }

  function ReadFraction(s: string): (r: Option<Found<real>>)
    ensures r.Some? ==> |r.value.rest| <= |s|
  {
    if !Starts(s, '.') then Some(Found(0.0, s))
    else
      var n := Run(s[1..]);
      if n == 0 then None else Some(Found(Value(s[1..][..n]) as real / Pow10(n), s[1..][n..]))
  }

  function ReadExponent(s: string): (r: Option<Found<int>>)
    ensures r.Some? ==> |r.value.rest| <= |s|
  {
    if !Starts(s, 'e') && !Starts(s, 'E') then Some(Found(0, s))
    else
      var t := if Starts(s[1..], '+') || Starts(s[1..], '-') then s[2..] else s[1..];
      var n := Run(t);
      if n == 0 then None
      else
        var e: int := Value(t[..n]);
        Some(Found(if Starts(s[1..], '-') then -e else e, t[n..]))
  }

  function ReadNumber(s: string): (r: Option<Found<real>>)
    ensures r.Some? ==> |r.value.rest| < |s|
  {
    var t := if Starts(s, '-') then s[1..] else s;
    match ReadInt(t)
    case None => None
    case Some(whole) =>
      match ReadFraction(whole.rest)
      case None => None
      case Some(fraction) =>
        match ReadExponent(fraction.rest)
        case None => None
        case Some(exponent) =>
          var x := Scaled(whole.value as real + fraction.value, exponent.value);
          Some(Found(if Starts(s, '-') then -x else x, exponent.rest))
  }

  // ---------------------------------------------------------------- section 7: strings

  function HexValue(c: char): (v: Option<nat>)
    ensures v.Some? ==> v.value < 16
  {
    if IsDigit(c) then Some(DigitValue(c))
    else if 'a' <= c <= 'f' then Some(c as int - 'a' as int + 10)
    else if 'A' <= c <= 'F' then Some(c as int - 'A' as int + 10)
    else None
  }

  /** Four hexadecimal digits. */
  function ReadUnit(s: string): (r: Option<Found<nat>>)
    ensures r.Some? ==> |r.value.rest| < |s| && r.value.value < 0x1_0000
  {
    if |s| < 4 then None
    else
      match (HexValue(s[0]), HexValue(s[1]), HexValue(s[2]), HexValue(s[3]))
      case (Some(a), Some(b), Some(c), Some(d)) =>
        Some(Found(0x1000 * a + 0x100 * b + 0x10 * c + d, s[4..]))
      case _ => None
  }

  /** The character a `\u` escape stands for; characters beyond 16 bits take two. */
  function ReadUnicode(s: string): (r: Option<Found<char>>)
    ensures r.Some? ==> |r.value.rest| < |s|
  {
    match ReadUnit(s)
    case None => None
    case Some(high) =>
      if high.value < 0xD800 || 0xE000 <= high.value then Some(Found(high.value as char, high.rest))
      else if 0xDC00 <= high.value || !("\\u" <= high.rest) then None
      else
        match ReadUnit(high.rest[2..])
        case None => None
        case Some(low) =>
          if 0xDC00 <= low.value < 0xE000
          then Some(Found((0x10000 + (high.value - 0xD800) * 0x400 + (low.value - 0xDC00)) as char, low.rest))
          else None
  }

  /** The character a backslash introduces. */
  function ReadEscape(s: string): (r: Option<Found<char>>)
    ensures r.Some? ==> |r.value.rest| < |s|
  {
    if s == [] then None
    else
      match s[0]
      case '\"' => Some(Found('\"', s[1..]))
      case '\\' => Some(Found('\\', s[1..]))
      case '/' => Some(Found('/', s[1..]))
      case 'b' => Some(Found(8 as char, s[1..]))
      case 'f' => Some(Found(12 as char, s[1..]))
      case 'n' => Some(Found('\n', s[1..]))
      case 'r' => Some(Found('\r', s[1..]))
      case 't' => Some(Found('\t', s[1..]))
      case 'u' => ReadUnicode(s[1..])
      case _ => None
  }

  /** The rest of a string whose opening quote has been read. */
  function ReadChars(s: string): (r: Option<Found<string>>)
    ensures r.Some? ==> |r.value.rest| < |s|
    decreases |s|
  {
    if s == [] || s[0] < ' ' then None
    else if s[0] == '\"' then Some(Found("", s[1..]))
    else
      match (if s[0] == '\\' then ReadEscape(s[1..]) else Some(Found(s[0], s[1..])))
      case None => None
      case Some(c) =>
        match ReadChars(c.rest)
        case None => None
        case Some(more) => Some(Found([c.value] + more.value, more.rest))
  }

  // ---------------------------------------------------------------- sections 3 to 5: values

  function ReadValue(s: string): (r: Option<Found<Json>>)
    ensures r.Some? ==> |r.value.rest| < |s|
    decreases |s|, 1
  {
    var t := SkipSpace(s);
    if t == [] then None
    else if t[0] == '{' then
      var u := SkipSpace(t[1..]);
      if Starts(u, '}') then Some(Found(Object(map[]), u[1..])) else ReadMembers(u, map[])
    else if t[0] == '[' then
      var u := SkipSpace(t[1..]);
      if Starts(u, ']') then Some(Found(List([]), u[1..])) else ReadItems(u, [])
    else if t[0] == '\"' then
      match ReadChars(t[1..])
      case None => None
      case Some(text) => Some(Found(Text(text.value), text.rest))
    else if "true" <= t then Some(Found(Bool(true), t[4..]))
    else if "false" <= t then Some(Found(Bool(false), t[5..]))
    else if "null" <= t then Some(Found(Null, t[4..]))
    else
      match ReadNumber(t)
      case None => None
      case Some(number) => Some(Found(Number(number.value), number.rest))
  }

  /** One or more members, up to the closing brace. */
  function ReadMembers(s: string, seen: map<string, Json>): (r: Option<Found<Json>>)
    ensures r.Some? ==> |r.value.rest| < |s|
    decreases |s|, 0
  {
    var t := SkipSpace(s);
    if !Starts(t, '\"') then None
    else
      match ReadChars(t[1..])
      case None => None
      case Some(name) =>
        var u := SkipSpace(name.rest);
        if !Starts(u, ':') then None
        else
          match ReadValue(u[1..])
          case None => None
          case Some(value) =>
            var w := SkipSpace(value.rest);
            var members := seen[name.value := value.value];
            if Starts(w, '}') then Some(Found(Object(members), w[1..]))
            else if Starts(w, ',') then ReadMembers(w[1..], members)
            else None
  }

  /** One or more array elements, up to the closing bracket. */
  function ReadItems(s: string, seen: seq<Json>): (r: Option<Found<Json>>)
    ensures r.Some? ==> |r.value.rest| < |s|
    decreases |s|, 2
  {
    match ReadValue(s)
    case None => None
    case Some(value) =>
      var w := SkipSpace(value.rest);
      if Starts(w, ']') then Some(Found(List(seen + [value.value]), w[1..]))
      else if Starts(w, ',') then ReadItems(w[1..], seen + [value.value])
      else None
  }
}
