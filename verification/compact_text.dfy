/** Canonical text holds no whitespace outside its strings. */
module CompactText {
  import opened Characters
  import opened Canonical
  import opened JsonParser
  import opened CanonicalLaws

  /** Where a scan of the text stands: outside strings, inside one, or after a backslash in one. */
  datatype At = Outside | Inside | Escaping

  function Next(at: At, c: char): At {
    match at
    case Outside => if c == '"' then Inside else Outside
    case Inside => if c == '"' then Outside else if c == '\\' then Escaping else Inside
    case Escaping => Inside
  }

  function End(s: string, at: At): At {
    if s == [] then at else End(s[1..], Next(at, s[0]))
  }

  /** No whitespace is met while outside strings. */
  predicate Tight(s: string, at: At) {
    s == [] || ((at.Outside? ==> !IsSpace(s[0])) && Tight(s[1..], Next(at, s[0])))
  }

  lemma {:induction false} TightAppend(a: string, b: string, at: At)
    requires Tight(a, at) && Tight(b, End(a, at))
    ensures Tight(a + b, at) && End(a + b, at) == End(b, End(a, at))
  {
    if a == [] {
      assert a + b == b;
    } else {
      assert (a + b)[0] == a[0] && (a + b)[1..] == a[1..] + b;
      TightAppend(a[1..], b, Next(at, a[0]));
    }
  }

  /** A piece of text that stands outside strings from start to end. */
  predicate Piece(s: string) {
    Tight(s, Outside) && End(s, Outside) == Outside
  }

  lemma PieceAppend(a: string, b: string)
    requires Piece(a) && Piece(b)
    ensures Piece(a + b)
  {
    TightAppend(a, b, Outside);
  }

  lemma {:induction false} BarePiece(s: string)
    requires forall i :: 0 <= i < |s| ==> !IsSpace(s[i]) && s[i] != '"'
    ensures Piece(s)
  {
    if s == [] {
    } else {
      BarePiece(s[1..]);
    }
  }

  lemma EscapedStaysInside(c: char)
    ensures Tight(Escaped(c), Inside) && End(Escaped(c), Inside) == Inside
  {
    var e := Escaped(c);
    if e[0] == '\\' {
      if |e| == 2 {
        assert e[1..][1..] == [];
        assert End(e[1..], Escaping) == End(e[1..][1..], Inside);
      } else {
        HexIsPlain(c as int / 16);
        HexIsPlain(c as int % 16);
        assert e[1..][1..] == ['0', '0', e[4], e[5]];
        InsidePlain(e[1..][1..]);
      }
    } else {
      assert e[1..] == [];
    }
  }

  lemma HexIsPlain(d: nat)
    requires d < 16
    ensures HexDigit(d) != '"' && HexDigit(d) != '\\'
  {
    HexRoundTrip(d);
  }

  lemma {:induction false} InsidePlain(s: string)
    requires forall i :: 0 <= i < |s| ==> s[i] != '"' && s[i] != '\\'
    ensures Tight(s, Inside) && End(s, Inside) == Inside
  {
    if s == [] {
    } else {
      InsidePlain(s[1..]);
    }
  }

  lemma {:induction false} EscapedAllStaysInside(s: string)
    ensures Tight(EscapedAll(s), Inside) && End(EscapedAll(s), Inside) == Inside
  {
    if s == [] {
    } else {
      EscapedStaysInside(s[0]);
      EscapedAllStaysInside(s[1..]);
      TightAppend(Escaped(s[0]), EscapedAll(s[1..]), Inside);
    }
  }

  lemma QuotedPiece(s: string)
    ensures Piece(Quoted(s))
  {
    EscapedAllStaysInside(s);
    assert "\""[1..] == [];
    TightAppend(EscapedAll(s), "\"", Inside);
    assert Quoted(s)[0] == '"' && Quoted(s)[1..] == EscapedAll(s) + "\"";
  }

  lemma NumberPiece(j: Json)
    requires (j.Int? || j.Float?) && WellFormed(j)
    ensures Piece(Printed(j))
  {
    if j.Int? {
      IntReadsBack(j.n);
    }
    NumberTextShape(Printed(j));
    BarePiece(Printed(j));
  }

  lemma MarkPiece(s: string)
    requires s == "[" || s == "]" || s == "{" || s == "}" || s == "," || s == ":" || s == "null" || s == "true" || s == "false"
    ensures Piece(s)
  {
    BarePiece(s);
  }

  /** No insignificant whitespace, whatever is printed. */
  lemma {:induction false} PrintedIsCompact(j: Json)
    requires WellFormed(j)
    ensures Piece(Printed(j))
    decreases j, 1
  {
    match j {
      case Null => MarkPiece("null");
      case Bool(b) => MarkPiece(if b then "true" else "false");
      case Int(_) => NumberPiece(j);
      case Float(_) => NumberPiece(j);
      case Str(s) => QuotedPiece(s);
      case Array(items) =>
        MarkPiece("[");
        MarkPiece("]");
        if items != [] { ItemsAreCompact(items); }
        PieceAppend("[", if items == [] then "]" else PrintedItems(items));
      case Object(members) =>
        MarkPiece("{");
        MarkPiece("}");
        if members != [] { MembersAreCompact(members); }
        PieceAppend("{", if members == [] then "}" else PrintedMembers(members));
    }
  }

  lemma {:induction false} ItemsAreCompact(items: seq<Json>)
    requires items != [] && forall i :: 0 <= i < |items| ==> WellFormed(items[i])
    ensures Piece(PrintedItems(items))
    decreases items, 0
  {
    PrintedIsCompact(items[0]);
    if |items| == 1 {
      MarkPiece("]");
      PieceAppend(Printed(items[0]), "]");
    } else {
      MarkPiece(",");
      ItemsAreCompact(items[1..]);
      PieceAppend(",", PrintedItems(items[1..]));
      PieceAppend(Printed(items[0]), "," + PrintedItems(items[1..]));
    }
  }

  lemma {:induction false} MembersAreCompact(members: seq<Member>)
    requires members != [] && forall i :: 0 <= i < |members| ==> WellFormed(members[i].value)
    ensures Piece(PrintedMembers(members))
    decreases members, 0
  {
    var m := members[0];
    assert m.value < m;
    QuotedPiece(m.key);
    MarkPiece(":");
    PrintedIsCompact(m.value);
    PieceAppend(Quoted(m.key), ":");
    PieceAppend(Quoted(m.key) + ":", Printed(m.value));
    var close := if |members| == 1 then "}" else "," + PrintedMembers(members[1..]);
    if |members| == 1 {
      MarkPiece("}");
    } else {
      MarkPiece(",");
      MembersAreCompact(members[1..]);
      PieceAppend(",", PrintedMembers(members[1..]));
    }
    PieceAppend(Quoted(m.key) + ":" + Printed(m.value), close);
  }
}
