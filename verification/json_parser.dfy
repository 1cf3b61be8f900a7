/** A JSON parser (RFC 8259, sections 2 to 7), written independently of the printer. */
module JsonParser {
  import opened Characters
  import opened Canonical

  datatype Parsed<+T> = Got(value: T, rest: string) | Bad

  // ----- whitespace (section 2) -----

  function Skip(s: string): (r: string)
    ensures |r| <= |s|
  {
    if s != [] && IsSpace(s[0]) then Skip(s[1..]) else s
  }

  /** Reads exactly this word. */
  function Literal(s: string, word: string, j: Json): (r: Parsed<Json>)
    ensures r.Got? ==> |r.rest| + |word| == |s|
  {
    if word == [] then Got(j, s)
    else if s == [] || s[0] != word[0] then Bad
    else Literal(s[1..], word[1..], j)
  }

  // ----- numbers (section 6) -----

  predicate InNumber(c: char) { IsDigit(c) || c == '-' || c == '+' || c == '.' || c == 'e' || c == 'E' }

  function NumberLength(s: string): (n: nat)
    ensures n <= |s|
  {
    if s != [] && InNumber(s[0]) then 1 + NumberLength(s[1..]) else 0
  }

  /** How much of a number has been read. */
  datatype Scan = Start | Sign | Zero | Whole | Point | Fraction | Exponent | ExponentSign | Power | Wrong

  function Step(at: Scan, c: char): Scan {
    match at
    case Start => if c == '-' then Sign else if c == '0' then Zero else if IsDigit(c) then Whole else Wrong
    case Sign => if c == '0' then Zero else if IsDigit(c) then Whole else Wrong
    case Zero => if c == '.' then Point else if c == 'e' || c == 'E' then Exponent else Wrong
    case Whole => if IsDigit(c) then Whole else if c == '.' then Point else if c == 'e' || c == 'E' then Exponent else Wrong
    case Point => if IsDigit(c) then Fraction else Wrong
    case Fraction => if IsDigit(c) then Fraction else if c == 'e' || c == 'E' then Exponent else Wrong
    case Exponent => if c == '+' || c == '-' then ExponentSign else if IsDigit(c) then Power else Wrong
    case ExponentSign => if IsDigit(c) then Power else Wrong
    case Power => if IsDigit(c) then Power else Wrong
    case Wrong => Wrong
  }

  function Scanned(at: Scan, s: string): Scan
    decreases |s|
  {
    if s == [] then at else Scanned(Step(at, s[0]), s[1..])
  }

  predicate IsIntText(t: string) {
    var end := Scanned(Start, t);
    end == Zero || end == Whole
  }

  /** A number with a fraction, an exponent or both. */
  predicate IsFloatText(t: string) {
    var end := Scanned(Start, t);
    end == Fraction || end == Power
  }

  function Unsigned(t: string): string {
    if t != [] && t[0] == '-' then t[1..] else t
  }

  function Decimal(s: string): int {
    if s == [] then 0 else 10 * Decimal(s[..|s| - 1]) + (s[|s| - 1] as int - '0' as int)
  }

  function ParseNumber(s: string): (r: Parsed<Json>)
    ensures r.Got? ==> |r.rest| < |s|
  {
    var n := NumberLength(s);
    var t := s[..n];
    if IsIntText(t) then
      var m := Decimal(Unsigned(t));
      Got(Int(if t[0] == '-' then -m else m), s[n..])
    else if IsFloatText(t) then Got(Float(t), s[n..])
    else Bad
  }

  // ----- strings (section 7) -----

  function HexValue(c: char): int {
    if IsDigit(c) then c as int - '0' as int
    else if 'a' <= c <= 'f' then c as int - 'a' as int + 10
    else if 'A' <= c <= 'F' then c as int - 'A' as int + 10
    else -1
  }

  /** The character after a backslash; surrogate escapes are refused. */
  function ParseEscape(s: string): (r: Parsed<char>)
    ensures r.Got? ==> |r.rest| < |s|
  {
    if s == [] then Bad
    else if s[0] == '"' || s[0] == '\\' || s[0] == '/' then Got(s[0], s[1..])
    else if s[0] == 'n' then Got('\n', s[1..])
    else if s[0] == 'r' then Got('\r', s[1..])
    else if s[0] == 't' then Got('\t', s[1..])
    else if s[0] == 'b' then Got(0x08 as char, s[1..])
    else if s[0] == 'f' then Got(0x0c as char, s[1..])
    else if s[0] == 'u' && |s| >= 5 then
      var (a, b, c, d) := (HexValue(s[1]), HexValue(s[2]), HexValue(s[3]), HexValue(s[4]));
      if a < 0 || b < 0 || c < 0 || d < 0 then Bad
      else
        var code := 4096 * a + 256 * b + 16 * c + d;
        if 0xD800 <= code < 0xE000 then Bad else Got(code as char, s[5..])
    else Bad
  }

  /** What follows an opening quote. */
  function ParseChars(s: string): (r: Parsed<string>)
    ensures r.Got? ==> |r.rest| < |s|
    decreases |s|
  {
    if s == [] || s[0] as int < 0x20 then Bad
    else if s[0] == '"' then Got([], s[1..])
    else
      var first := if s[0] == '\\' then ParseEscape(s[1..]) else Got(s[0], s[1..]);
      if first.Bad? then Bad
      else
        var more := ParseChars(first.rest);
        if more.Bad? then Bad else Got([first.value] + more.value, more.rest)
  }

  // ----- values (sections 3 to 5) -----

  function ParseValue(text: string): (r: Parsed<Json>)
    ensures r.Got? ==> |r.rest| < |text|
    decreases |text|, 1
  {
    var s := Skip(text);
    if s == [] then Bad
    else if s[0] == 'n' then Literal(s, "null", Null)
    else if s[0] == 't' then Literal(s, "true", Bool(true))
    else if s[0] == 'f' then Literal(s, "false", Bool(false))
    else if s[0] == '"' then
      var chars := ParseChars(s[1..]);
      if chars.Bad? then Bad else Got(Str(chars.value), chars.rest)
    else if s[0] == '[' then
      var t := Skip(s[1..]);
      if t != [] && t[0] == ']' then Got(Array([]), t[1..])
      else
        var items := ParseItems(s[1..]);
        if items.Bad? then Bad else Got(Array(items.value), items.rest)
    else if s[0] == '{' then
      var t := Skip(s[1..]);
      if t != [] && t[0] == '}' then Got(Object([]), t[1..])
      else
        var members := ParseMembers(s[1..]);
        if members.Bad? then Bad else Got(Object(members.value), members.rest)
    else ParseNumber(s)
  }

  function ParseItems(s: string): (r: Parsed<seq<Json>>)
    ensures r.Got? ==> |r.rest| < |s|
    decreases |s|, 2
  {
    var first := ParseValue(s);
    if first.Bad? then Bad
    else
      var t := Skip(first.rest);
      if t == [] then Bad
      else if t[0] == ']' then Got([first.value], t[1..])
      else if t[0] == ',' then
        var more := ParseItems(t[1..]);
        if more.Bad? then Bad else Got([first.value] + more.value, more.rest)
      else Bad
  }

  function ParseMembers(s: string): (r: Parsed<seq<Member>>)
    ensures r.Got? ==> |r.rest| < |s|
    decreases |s|, 2
  {
    var k := Skip(s);
    if k == [] || k[0] != '"' then Bad
    else
      var key := ParseChars(k[1..]);
      if key.Bad? then Bad
      else
        var colon := Skip(key.rest);
        if colon == [] || colon[0] != ':' then Bad
        else
          var first := ParseValue(colon[1..]);
          if first.Bad? then Bad
          else
            var t := Skip(first.rest);
            var member := Member(key.value, first.value);
            if t == [] then Bad
            else if t[0] == '}' then Got([member], t[1..])
            else if t[0] == ',' then
              var more := ParseMembers(t[1..]);
              if more.Bad? then Bad else Got([member] + more.value, more.rest)
            else Bad
  }

  /** A whole document: one value and nothing but whitespace after it. */
  function Parse(text: string): Parsed<Json> {
    var r := ParseValue(text);
    if r.Got? && Skip(r.rest) != [] then Bad else r
  }
}
