/** Printed JSON reads back: numbers, strings and whole values, before any delimited rest. */
module CanonicalLaws {
  import opened Characters
  import opened Canonical
  import opened JsonParser

  // ----- well-formed payloads -----

  predicate DistinctKeys(members: seq<Member>) {
    forall i, j :: 0 <= i < j < |members| ==> members[i].key != members[j].key
  }

  /** Floats are float literals, and no object repeats a key. */
  predicate WellFormed(j: Json)
    decreases j
  {
    match j
    case Float(repr) => IsFloatText(repr)
    case Array(items) => forall i :: 0 <= i < |items| ==> WellFormed(items[i])
    case Object(members) => DistinctKeys(members) && forall i :: 0 <= i < |members| ==> WellFormed(members[i].value)
    case _ => true
  }

  // ----- numbers read back -----

  lemma {:induction false} DigitsScan(s: string)
    requires forall i :: 0 <= i < |s| ==> IsDigit(s[i])
    ensures Scanned(Whole, s) == Whole
  {
    if s == [] {
    } else {
      DigitsScan(s[1..]);
    }
  }

  lemma {:induction false} DigitsReadBack(n: nat)
    ensures Digits(n) != [] && forall i :: 0 <= i < |Digits(n)| ==> IsDigit(Digits(n)[i])
    ensures Decimal(Digits(n)) == n
    ensures if n == 0 then Digits(n) == "0" else Digits(n)[0] != '0'
  {
    var s := Digits(n);
    if n < 10 {
      assert s[..0] == [];
      assert Decimal(s[..0]) == 0;
    } else {
      DigitsReadBack(n / 10);
      assert s[..|s| - 1] == Digits(n / 10);
    }
  }

  lemma UnsignedScan(n: nat, at: Scan)
    requires at == Start || at == Sign
    ensures Scanned(at, Digits(n)) == Zero || Scanned(at, Digits(n)) == Whole
  {
    DigitsReadBack(n);
    var s := Digits(n);
    if n == 0 {
      assert s[1..] == [];
    } else {
      DigitsScan(s[1..]);
    }
  }

  lemma IntReadsBack(n: int)
    ensures
      var t := IntText(n);
      && IsIntText(t)
      && (if n < 0 then t[0] == '-' && Decimal(Unsigned(t)) == -n else t[0] != '-' && Decimal(Unsigned(t)) == n)
  {
    var m := if n < 0 then -n else n;
    DigitsReadBack(m);
    UnsignedScan(m, if n < 0 then Sign else Start);
    if n < 0 {
      assert IntText(n)[1..] == Digits(m);
    }
  }

  lemma {:induction false} ScannedInNumber(at: Scan, s: string)
    requires Scanned(at, s) != Wrong
    ensures forall i :: 0 <= i < |s| ==> InNumber(s[i])
    decreases |s|
  {
    if s == [] {
    } else {
      if Step(at, s[0]) == Wrong {
        WrongStaysWrong(s[1..]);
      }
      ScannedInNumber(Step(at, s[0]), s[1..]);
    }
  }

  lemma {:induction false} WrongStaysWrong(s: string)
    ensures Scanned(Wrong, s) == Wrong
  {
    if s == [] {
    } else {
      WrongStaysWrong(s[1..]);
    }
  }

  /** A number text is all number characters, and starts like a number. */
  lemma NumberTextShape(t: string)
    requires IsIntText(t) || IsFloatText(t)
    ensures t != [] && (t[0] == '-' || IsDigit(t[0])) && forall i :: 0 <= i < |t| ==> InNumber(t[i])
  {
    ScannedInNumber(Start, t);
    if Step(Start, t[0]) == Wrong {
      WrongStaysWrong(t[1..]);
    }
  }

  /** What may follow a number without becoming part of it. */
  predicate Delimited(rest: string) {
    rest == [] || !InNumber(rest[0])
  }

  lemma {:induction false} NumberLengthExact(t: string, rest: string)
    requires forall i :: 0 <= i < |t| ==> InNumber(t[i])
    requires Delimited(rest)
    ensures NumberLength(t + rest) == |t|
  {
    if t == [] {
      assert t + rest == rest;
    } else {
      assert (t + rest)[1..] == t[1..] + rest;
      NumberLengthExact(t[1..], rest);
    }
  }

  lemma NumberRoundTrip(j: Json, rest: string)
    requires (j.Int? || j.Float?) && WellFormed(j) && Delimited(rest)
    ensures ParseNumber(Printed(j) + rest) == Got(j, rest)
  {
    var t := Printed(j);
    if j.Int? {
      IntReadsBack(j.n);
    }
    NumberTextShape(t);
    NumberLengthExact(t, rest);
    assert (t + rest)[..|t|] == t && (t + rest)[|t|..] == rest;
  }

  // ----- strings read back -----

  lemma EscapeRoundTrip(c: char, rest: string)
    ensures
      var s := Escaped(c) + rest;
      && s[0] as int >= 0x20 && s[0] != '"'
      && if s[0] == '\\' then ParseEscape(s[1..]) == Got(c, rest) else c == s[0] && s[1..] == rest
  {
    var e := Escaped(c);
    var s := e + rest;
    if e[0] == '\\' {
      assert s[1..] == e[1..] + rest;
      var t := s[1..];
      if |e| == 2 {
        assert t[1..] == rest;
      } else {
        HexEscapeRoundTrip(c, rest);
      }
    } else {
      assert s[1..] == rest;
    }
  }

  lemma HexEscapeRoundTrip(c: char, rest: string)
    requires c as int < 0x20 && |Escaped(c)| == 6
    ensures ParseEscape(Escaped(c)[1..] + rest) == Got(c, rest)
  {
    var t := Escaped(c)[1..] + rest;
    assert t[5..] == rest && t[0] == 'u' && t[1] == '0' && t[2] == '0';
    HexRoundTrip(c as int / 16);
    HexRoundTrip(c as int % 16);
  }

  lemma HexRoundTrip(d: nat)
    requires d < 16
    ensures HexValue(HexDigit(d)) == d
  {
    if d >= 10 {
      var offset := (d - 10) as char;
      assert HexDigit(d) as int == 'a' as int + (d - 10);
    } else {
      assert HexDigit(d) as int == '0' as int + d;
    }
  }

  lemma {:induction false} CharsRoundTrip(s: string, rest: string)
    ensures ParseChars(EscapedAll(s) + "\"" + rest) == Got(s, rest)
  {
    var text := EscapedAll(s) + "\"" + rest;
    if s == [] {
      assert text == "\"" + rest;
      assert text[1..] == rest;
    } else {
      var tail := EscapedAll(s[1..]) + "\"" + rest;
      assert text == Escaped(s[0]) + tail;
      EscapeRoundTrip(s[0], tail);
      CharsRoundTrip(s[1..], rest);
      assert s == [s[0]] + s[1..];
    }
  }

  /** Between quotes, the text reads as this one character. */
  predicate ReadsAs(t: string, c: char) {
    ParseChars(t + "\"") == Got([c], "")
  }

  predicate NoCapitals(t: string) {
    forall i :: 0 <= i < |t| ==> !('A' <= t[i] <= 'F')
  }

  /** Nothing shorter reads as the character, and of what is as short only one is without capitals. */
  lemma ShortestEscape(c: char, t: string)
    requires ReadsAs(t, c)
    ensures |Escaped(c)| <= |t|
    ensures |Escaped(c)| == |t| && (t == [c] || NoCapitals(t)) ==> t == Escaped(c)
  {
    var s := t + "\"";
    assert t == [] ==> s == "\"";
    assert s[0] == t[0];
    if t[0] == '\\' {
      EscapeIsShortest(c, t);
    } else {
      assert ParseChars(s).value[0] == s[0];
      assert |t| == 1 ==> t == [t[0]];
    }
  }

  lemma EscapeIsShortest(c: char, t: string)
    requires ReadsAs(t, c) && t != [] && t[0] == '\\'
    ensures |Escaped(c)| <= |t|
    ensures |Escaped(c)| == |t| && NoCapitals(t) ==> t == Escaped(c)
  {
    var s := t + "\"";
    var e := ParseEscape(s[1..]);
    assert s[0] == '\\' && ParseChars(s).value == [e.value] + ParseChars(e.rest).value;
    assert ParseChars(s).value[0] == e.value;
    assert |ParseChars(e.rest).value| == 0 && ParseChars(e.rest).Got?;
    assert |e.rest| >= 1;
    assert |t| >= 2;
    if s[1] != 'u' {
      assert s[1..][0] == s[1] && s[1] == t[1] && e.rest == s[2..];
      assert |t| == 2 ==> t == [t[0], t[1]];
    } else {
      HexEscape(c, t, s);
    }
  }

  lemma HexEscape(c: char, t: string, s: string)
    requires s == t + "\"" && |t| >= 2 && t[0] == '\\' && t[1] == 'u'
    requires ParseEscape(s[1..]).Got? && ParseEscape(s[1..]).value == c && |ParseEscape(s[1..]).rest| >= 1
    ensures |t| >= 6 >= |Escaped(c)|
    ensures |Escaped(c)| == |t| && NoCapitals(t) ==> t == Escaped(c)
  {
    assert s[1..][0] == 'u' && |s[1..]| >= 5 && ParseEscape(s[1..]).rest == s[6..];
    assert |t| >= 6;
    if |Escaped(c)| == |t| && NoCapitals(t) {
      assert t[2] == s[1..][1] && t[3] == s[1..][2] && t[4] == s[1..][3] && t[5] == s[1..][4];
      LowerHex(t[2], t[3], t[4], t[5], c);
      assert t == ['\\', 'u', t[2], t[3], t[4], t[5]];
    }
  }

  /** Four hexadecimal digits without capitals, of a character below 0x20. */
  lemma LowerHex(a: char, b: char, d: char, e: char, c: char)
    requires HexValue(a) >= 0 && HexValue(b) >= 0 && HexValue(d) >= 0 && HexValue(e) >= 0 && c as int < 0x20
    requires c as int == 4096 * HexValue(a) + 256 * HexValue(b) + 16 * HexValue(d) + HexValue(e)
    requires NoCapitals([a, b, d, e])
    ensures a == '0' && b == '0' && d == HexDigit(c as int / 16) && e == HexDigit(c as int % 16)
  {
    assert [a, b, d, e][0] == a && [a, b, d, e][1] == b && [a, b, d, e][2] == d && [a, b, d, e][3] == e;
    assert HexValue(a) == 0 && HexValue(b) == 0 && HexValue(d) == c as int / 16 && HexValue(e) == c as int % 16;
    LowerDigit(d);
    LowerDigit(e);
  }

  lemma LowerDigit(d: char)
    requires HexValue(d) >= 0 && !('A' <= d <= 'F')
    ensures HexValue(d) < 16 && d == HexDigit(HexValue(d))
  {
  }

  /** What is printed for a character is read as it, and is that one text. */
  lemma EscapeIsCanonical(c: char)
    ensures ReadsAs(Escaped(c), c) && (Escaped(c) == [c] || NoCapitals(Escaped(c)))
  {
    CharsRoundTrip([c], "");
    assert EscapedAll([c]) == Escaped(c) + EscapedAll([]) == Escaped(c);
    assert Escaped(c) + "\"" + "" == Escaped(c) + "\"";
  }

  // ----- values read back -----

  /** A printed value starts with none of the characters the parser treats specially. */
  lemma PrintedHead(j: Json)
    requires WellFormed(j)
    ensures Printed(j) != [] && !IsSpace(Printed(j)[0]) && Printed(j)[0] != ']'
  {
    if j.Int? {
      IntReadsBack(j.n);
    }
    if j.Int? || j.Float? {
      NumberTextShape(Printed(j));
    }
  }

  lemma SkipNothing(s: string)
    requires s == [] || !IsSpace(s[0])
    ensures Skip(s) == s
  {
  }

  /** The characters that decide what kind of value follows, when it is not a number. */
  predicate Marker(c: char) { c == 'n' || c == 't' || c == 'f' || c == '"' || c == '[' || c == '{' }

  lemma NumberStart(c: char)
    requires c == '-' || IsDigit(c)
    ensures !Marker(c) && !IsSpace(c)
  {
  }

  lemma NumberRead(text: string)
    requires text != [] && !Marker(text[0]) && Skip(text) == text
    ensures ParseValue(text) == ParseNumber(text)
  {
  }

  lemma ArrayRead(text: string, items: seq<Json>, rest: string)
    requires text != [] && text[0] == '[' && Skip(text) == text
    requires text[1..] != [] && Skip(text[1..]) == text[1..]
    requires text[1..][0] != ']' && ParseItems(text[1..]) == Got(items, rest)
    ensures ParseValue(text) == Got(Array(items), rest)
  {
  }

  lemma ObjectRead(text: string, members: seq<Member>, rest: string)
    requires text != [] && text[0] == '{' && Skip(text) == text
    requires text[1..] != [] && Skip(text[1..]) == text[1..]
    requires text[1..][0] != '}' && ParseMembers(text[1..]) == Got(members, rest)
    ensures ParseValue(text) == Got(Object(members), rest)
  {
  }

  lemma EmptyRead(text: string)
    requires text != [] && Skip(text) == text && text[1..] != [] && Skip(text[1..]) == text[1..]
    ensures text[0] == '[' && text[1..][0] == ']' ==> ParseValue(text) == Got(Array([]), text[1..][1..])
    ensures text[0] == '{' && text[1..][0] == '}' ==> ParseValue(text) == Got(Object([]), text[1..][1..])
  {
  }

  lemma LastItemRead(text: string, item: Json, after: string)
    requires ParseValue(text) == Got(item, after) && after != [] && Skip(after) == after && after[0] == ']'
    ensures ParseItems(text) == Got([item], after[1..])
  {
  }

  lemma ItemRead(text: string, item: Json, after: string, more: seq<Json>, rest: string)
    requires ParseValue(text) == Got(item, after) && after != [] && Skip(after) == after && after[0] == ','
    requires ParseItems(after[1..]) == Got(more, rest)
    ensures ParseItems(text) == Got([item] + more, rest)
  {
  }

  /** `text` opens with a key, and `after` is what follows the value. */
  predicate MemberAt(text: string, m: Member, colon: string, after: string) {
    && text != [] && Skip(text) == text && text[0] == '"' && ParseChars(text[1..]) == Got(m.key, colon)
    && colon != [] && Skip(colon) == colon && colon[0] == ':' && ParseValue(colon[1..]) == Got(m.value, after)
    && after != [] && Skip(after) == after
  }

  lemma LastMemberRead(text: string, m: Member, colon: string, after: string)
    requires MemberAt(text, m, colon, after) && after[0] == '}'
    ensures ParseMembers(text) == Got([m], after[1..])
  {
  }

  lemma MemberRead(text: string, m: Member, colon: string, after: string, more: seq<Member>, rest: string)
    requires MemberAt(text, m, colon, after) && after[0] == ',' && ParseMembers(after[1..]) == Got(more, rest)
    ensures ParseMembers(text) == Got([m] + more, rest)
  {
  }

  lemma {:induction false} LiteralRead(word: string, j: Json, rest: string)
    ensures Literal(word + rest, word, j) == Got(j, rest)
  {
    if word == [] {
      assert word + rest == rest;
    } else {
      assert (word + rest)[1..] == word[1..] + rest;
      LiteralRead(word[1..], j, rest);
    }
  }

  lemma WordRoundTrip(j: Json, rest: string)
    requires j.Null? || j.Bool?
    ensures ParseValue(Printed(j) + rest) == Got(j, rest)
  {
    SkipNothing(Printed(j) + rest);
    LiteralRead(Printed(j), j, rest);
  }

  lemma StringRoundTrip(s: string, rest: string)
    ensures ParseValue(Quoted(s) + rest) == Got(Str(s), rest)
  {
    var text := Quoted(s) + rest;
    SkipNothing(text);
    assert text[1..] == EscapedAll(s) + "\"" + rest;
    CharsRoundTrip(s, rest);
  }

  lemma NumberValueRoundTrip(j: Json, rest: string)
    requires (j.Int? || j.Float?) && WellFormed(j) && Delimited(rest)
    ensures ParseValue(Printed(j) + rest) == Got(j, rest)
  {
    if j.Int? {
      IntReadsBack(j.n);
    }
    NumberTextShape(Printed(j));
    NumberStart(Printed(j)[0]);
    SkipNothing(Printed(j) + rest);
    NumberRead(Printed(j) + rest);
    NumberRoundTrip(j, rest);
  }

  lemma EmptyRoundTrip(j: Json, rest: string)
    requires j == Array([]) || j == Object([])
    ensures ParseValue(Printed(j) + rest) == Got(j, rest)
  {
    var text := Printed(j) + rest;
    SkipNothing(text);
    SkipNothing(text[1..]);
    EmptyRead(text);
    assert text[1..][1..] == rest;
  }

  lemma {:induction false} ValueRoundTrip(j: Json, rest: string)
    requires WellFormed(j) && Delimited(rest)
    ensures ParseValue(Printed(j) + rest) == Got(j, rest)
    decreases j, 1
  {
    match j {
      case Null => WordRoundTrip(j, rest);
      case Bool(_) => WordRoundTrip(j, rest);
      case Int(_) => NumberValueRoundTrip(j, rest);
      case Float(_) => NumberValueRoundTrip(j, rest);
      case Str(s) => StringRoundTrip(s, rest);
      case Array(items) =>
        if items == [] { EmptyRoundTrip(j, rest); } else { ArrayRoundTrip(items, rest); }
      case Object(members) =>
        if members == [] { EmptyRoundTrip(j, rest); } else { ObjectRoundTrip(members, rest); }
    }
  }

  lemma {:induction false} ArrayRoundTrip(items: seq<Json>, rest: string)
    requires items != [] && forall i :: 0 <= i < |items| ==> WellFormed(items[i])
    ensures ParseValue("[" + PrintedItems(items) + rest) == Got(Array(items), rest)
    decreases items, 1
  {
    var text := "[" + PrintedItems(items) + rest;
    PrintedHead(items[0]);
    DropFirst("[", PrintedItems(items), rest);
    SkipNothing(text);
    SkipNothing(text[1..]);
    ItemsRoundTrip(items, rest);
    ArrayRead(text, items, rest);
  }

  lemma {:induction false} ObjectRoundTrip(members: seq<Member>, rest: string)
    requires members != [] && forall i :: 0 <= i < |members| ==> WellFormed(members[i].value)
    ensures ParseValue("{" + PrintedMembers(members) + rest) == Got(Object(members), rest)
    decreases members, 1
  {
    var text := "{" + PrintedMembers(members) + rest;
    DropFirst("{", PrintedMembers(members), rest);
    assert PrintedMembers(members)[0] == '"';
    SkipNothing(text);
    SkipNothing(text[1..]);
    MembersRoundTrip(members, rest);
    ObjectRead(text, members, rest);
  }

  lemma Regroup(a: string, b: string, c: string, d: string)
    ensures a + (b + c) + d == a + (b + (c + d))
  {
  }

  lemma {:induction false} ItemsRoundTrip(items: seq<Json>, rest: string)
    requires items != [] && forall i :: 0 <= i < |items| ==> WellFormed(items[i])
    ensures ParseItems(PrintedItems(items) + rest) == Got(items, rest)
    decreases items, 0
  {
    var text := PrintedItems(items) + rest;
    if |items| == 1 {
      var after := "]" + rest;
      assert text == Printed(items[0]) + after;
      ValueRoundTrip(items[0], after);
      SkipNothing(after);
      LastItemRead(text, items[0], after);
      assert after[1..] == rest && items == [items[0]];
    } else {
      var after := "," + (PrintedItems(items[1..]) + rest);
      Regroup(Printed(items[0]), ",", PrintedItems(items[1..]), rest);
      ValueRoundTrip(items[0], after);
      SkipNothing(after);
      assert after[1..] == PrintedItems(items[1..]) + rest;
      ItemsRoundTrip(items[1..], rest);
      ItemRead(text, items[0], after, items[1..], rest);
      assert items == [items[0]] + items[1..];
    }
  }

  lemma Associate(a: string, b: string, c: string, d: string, e: string, f: string, g: string)
    requires |a| == 1
    ensures ((((a + b) + c) + d) + e) + f + g == a + (b + c + (d + (e + (f + g))))
    ensures (a + (b + c + (d + (e + (f + g)))))[1..] == b + c + (d + (e + (f + g)))
  {
  }

  lemma {:induction false} FirstMember(m: Member, close: string, rest: string)
    requires WellFormed(m.value) && close != [] && !InNumber(close[0]) && !IsSpace(close[0])
    ensures MemberAt(Quoted(m.key) + ":" + Printed(m.value) + close + rest, m, ":" + (Printed(m.value) + (close + rest)), close + rest)
    decreases m, 2
  {
    assert m.value < m;
    var after := close + rest;
    var colon := ":" + (Printed(m.value) + after);
    var text := Quoted(m.key) + ":" + Printed(m.value) + close + rest;
    Associate("\"", EscapedAll(m.key), "\"", ":", Printed(m.value), close, rest);
    assert text[1..] == EscapedAll(m.key) + "\"" + colon;
    CharsRoundTrip(m.key, colon);
    assert colon[1..] == Printed(m.value) + after;
    ValueRoundTrip(m.value, after);
    SkipNothing(text);
    SkipNothing(colon);
    SkipNothing(after);
  }

  lemma {:induction false} MembersRoundTrip(members: seq<Member>, rest: string)
    requires members != [] && forall i :: 0 <= i < |members| ==> WellFormed(members[i].value)
    ensures ParseMembers(PrintedMembers(members) + rest) == Got(members, rest)
    decreases members, 0
  {
    var m := members[0];
    if |members| == 1 {
      LastMemberRoundTrip(members, rest);
    } else {
      var close := "," + PrintedMembers(members[1..]);
      var after := close + rest;
      FirstMember(m, close, rest);
      FirstPrinted(members);
      var text := PrintedMembers(members) + rest;
      assert MemberAt(text, m, ":" + (Printed(m.value) + after), after);
      DropFirst(",", PrintedMembers(members[1..]), rest);
      MembersRoundTrip(members[1..], rest);
      MemberRead(text, m, ":" + (Printed(m.value) + after), after, members[1..], rest);
      assert members == [m] + members[1..];
    }
  }

  lemma FirstPrinted(members: seq<Member>)
    requires |members| > 1
    ensures var m := members[0];
      PrintedMembers(members) == Quoted(m.key) + ":" + Printed(m.value) + ("," + PrintedMembers(members[1..]))
  {
  }

  lemma DropFirst(a: string, b: string, c: string)
    requires |a| == 1
    ensures (a + b + c)[1..] == b + c
  {
  }

  lemma {:induction false} LastMemberRoundTrip(members: seq<Member>, rest: string)
    requires |members| == 1 && WellFormed(members[0].value)
    ensures ParseMembers(PrintedMembers(members) + rest) == Got(members, rest)
    decreases members, -1
  {
    var m := members[0];
    var text, after := Quoted(m.key) + ":" + Printed(m.value) + "}" + rest, "}" + rest;
    FirstMember(m, "}", rest);
    LastMemberRead(text, m, ":" + (Printed(m.value) + after), after);
    assert after[1..] == rest && members == [m];
  }
}
