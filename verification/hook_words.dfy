/** The shell words of a hook command, as a grammar: the reader accepts exactly the lines that are
    written from it, and reads the words they were written from. */
module HookWords {
  import opened Options
  import opened Characters
  import opened HookCommand

  /** What may stand between double quotes: a character for itself, or a backslash and any character. */
  datatype Part = Plain(c: char) | Slashed(c: char)

  /** What a word may be put together from. */
  datatype Piece =
    | Bare(c: char)
    | Backslashed(c: char)
    | Single(text: string)
    | Double(parts: seq<Part>)

  /** A line: white space, and pieces; pieces that touch are one word. */
  datatype Item = Space(c: char) | Piece(piece: Piece)

  predicate PartValid(p: Part) {
    p.Plain? ==> p.c != '"' && p.c != '\\'
  }

  predicate PieceValid(p: Piece) {
    match p
    case Bare(c) => !IsSpace(c) && !IsQuote(c) && c != '\\'
    case Backslashed(_) => true
    case Single(text) => forall i :: 0 <= i < |text| ==> text[i] != '\''
    case Double(parts) => forall i :: 0 <= i < |parts| ==> PartValid(parts[i])
  }

  predicate LineValid(line: seq<Item>) {
    forall i :: 0 <= i < |line| ==> if line[i].Space? then IsSpace(line[i].c) else PieceValid(line[i].piece)
  }

  // ----- how it is written -----

  function PartWritten(p: Part): string {
    if p.Plain? then [p.c] else ['\\', p.c]
  }

  function PartsWritten(parts: seq<Part>): string {
    if parts == [] then [] else PartWritten(parts[0]) + PartsWritten(parts[1..])
  }

  function PieceWritten(p: Piece): string {
    match p
    case Bare(c) => [c]
    case Backslashed(c) => ['\\', c]
    case Single(text) => ['\''] + (text + ['\''])
    case Double(parts) => ['"'] + (PartsWritten(parts) + ['"'])
  }

  function ItemWritten(item: Item): string {
    if item.Space? then [item.c] else PieceWritten(item.piece)
  }

  function Written(line: seq<Item>): string {
    if line == [] then [] else ItemWritten(line[0]) + Written(line[1..])
  }

  // ----- what it means -----

  /** Between double quotes a backslash protects itself and the quote, and is kept before anything else. */
  function PartMeant(p: Part): string {
    if p.Plain? || p.c == '"' || p.c == '\\' then [p.c] else ['\\', p.c]
  }

  function PartsMeant(parts: seq<Part>): string {
    if parts == [] then [] else PartMeant(parts[0]) + PartsMeant(parts[1..])
  }

  function Meant(p: Piece): string {
    match p
    case Bare(c) => [c]
    case Backslashed(c) => [c]
    case Single(text) => text
    case Double(parts) => PartsMeant(parts)
  }

  /** The words of a line; `word` is the one being read, if any. */
  function WordsOf(line: seq<Item>, word: Option<string>): seq<string> {
    if line == [] then (if word.Some? then [word.value] else [])
    else if line[0].Space? then (if word.Some? then [word.value] else []) + WordsOf(line[1..], None)
    else WordsOf(line[1..], Some((if word.Some? then word.value else "") + Meant(line[0].piece)))
  }

  function StateOf(word: Option<string>): Lex {
    if word.Some? then Word else Between
  }

  function Token(word: Option<string>): string {
    if word.Some? then word.value else ""
  }

  // ----- what is written is read -----

  lemma Next(c: char, rest: string)
    ensures ([c] + rest)[0] == c && ([c] + rest)[1..] == rest
  {
  }

  lemma {:induction false} SingleReads(text: string, rest: string, token: string)
    requires forall i :: 0 <= i < |text| ==> text[i] != '\''
    ensures Split(text + (['\''] + rest), Quoted('\''), token) == Split(rest, Word, token + text)
  {
    if text == [] {
      assert text + (['\''] + rest) == ['\''] + rest && token + text == token;
      Next('\'', rest);
    } else {
      var more := text[1..] + (['\''] + rest);
      assert text + (['\''] + rest) == [text[0]] + more;
      Next(text[0], more);
      SingleReads(text[1..], rest, token + [text[0]]);
      assert token + [text[0]] + text[1..] == token + text;
    }
  }

  lemma PartReads(p: Part, rest: string, token: string)
    requires PartValid(p)
    ensures Split(PartWritten(p) + rest, Quoted('"'), token) == Split(rest, Quoted('"'), token + PartMeant(p))
  {
    if p.Plain? {
      Next(p.c, rest);
    } else {
      assert PartWritten(p) + rest == ['\\'] + ([p.c] + rest);
      Next('\\', [p.c] + rest);
      Next(p.c, rest);
      assert token + "" + [p.c] == token + [p.c];
      assert token + "\\" + [p.c] == token + ['\\', p.c];
    }
  }

  lemma {:induction false} DoubleReads(parts: seq<Part>, rest: string, token: string)
    requires forall i :: 0 <= i < |parts| ==> PartValid(parts[i])
    ensures Split(PartsWritten(parts) + (['"'] + rest), Quoted('"'), token) == Split(rest, Word, token + PartsMeant(parts))
  {
    if parts == [] {
      assert PartsWritten(parts) + (['"'] + rest) == ['"'] + rest && token + PartsMeant(parts) == token;
      Next('"', rest);
    } else {
      var more := PartsWritten(parts[1..]) + (['"'] + rest);
      assert PartsWritten(parts) + (['"'] + rest) == PartWritten(parts[0]) + more;
      PartReads(parts[0], more, token);
      DoubleReads(parts[1..], rest, token + PartMeant(parts[0]));
      assert token + PartMeant(parts[0]) + PartsMeant(parts[1..]) == token + PartsMeant(parts);
    }
  }

  lemma SingleStarts(text: string, rest: string, word: Option<string>)
    requires forall i :: 0 <= i < |text| ==> text[i] != '\''
    ensures Split(PieceWritten(Single(text)) + rest, StateOf(word), Token(word)) == Split(rest, Word, Token(word) + text)
  {
    var more := text + (['\''] + rest);
    assert PieceWritten(Single(text)) + rest == ['\''] + more;
    Next('\'', more);
    SingleReads(text, rest, Token(word));
  }

  lemma DoubleStarts(parts: seq<Part>, rest: string, word: Option<string>)
    requires forall i :: 0 <= i < |parts| ==> PartValid(parts[i])
    ensures Split(PieceWritten(Double(parts)) + rest, StateOf(word), Token(word))
         == Split(rest, Word, Token(word) + PartsMeant(parts))
  {
    var more := PartsWritten(parts) + (['"'] + rest);
    assert PieceWritten(Double(parts)) + rest == ['"'] + more;
    Next('"', more);
    DoubleReads(parts, rest, Token(word));
  }

  lemma BackslashReads(c: char, rest: string, word: Option<string>)
    ensures Split(PieceWritten(Backslashed(c)) + rest, StateOf(word), Token(word)) == Split(rest, Word, Token(word) + [c])
  {
    assert PieceWritten(Backslashed(c)) + rest == ['\\'] + ([c] + rest);
    Next('\\', [c] + rest);
    Next(c, rest);
    assert Token(word) + "" + [c] == Token(word) + [c];
  }

  lemma PieceReads(p: Piece, rest: string, word: Option<string>)
    requires PieceValid(p)
    ensures Split(PieceWritten(p) + rest, StateOf(word), Token(word)) == Split(rest, Word, Token(word) + Meant(p))
  {
    match p {
      case Bare(c) =>
        Next(c, rest);
        assert word == None ==> Token(word) + [c] == [c];
      case Backslashed(c) => BackslashReads(c, rest, word);
      case Single(text) => SingleStarts(text, rest, word);
      case Double(parts) => DoubleStarts(parts, rest, word);
    }
  }

  lemma {:induction false} LineReads(line: seq<Item>, word: Option<string>)
    requires LineValid(line)
    ensures Split(Written(line), StateOf(word), Token(word)) == Some(WordsOf(line, word))
  {
    if line == [] {
    } else {
      var rest := Written(line[1..]);
      assert LineValid(line[1..]);
      if line[0].Space? {
        Next(line[0].c, rest);
        LineReads(line[1..], None);
        assert [] + WordsOf(line[1..], None) == WordsOf(line[1..], None);
      } else {
        PieceReads(line[0].piece, rest, word);
        LineReads(line[1..], Some(Token(word) + Meant(line[0].piece)));
      }
    }
  }

  // ----- what is read was written -----

  lemma {:induction false} SingleWasWritten(s: string, token: string) returns (text: string, rest: string)
    requires Split(s, Quoted('\''), token).Some?
    ensures s == text + (['\''] + rest) && (forall i :: 0 <= i < |text| ==> text[i] != '\'')
    ensures Split(s, Quoted('\''), token) == Split(rest, Word, token + text)
    decreases |s|
  {
    if s[0] == '\'' {
      text, rest := [], s[1..];
      assert s == [] + (['\''] + rest);
    } else {
      text, rest := SingleWasWritten(s[1..], token + [s[0]]);
      assert token + [s[0]] + text == token + ([s[0]] + text);
      text := [s[0]] + text;
    }
    SingleReads(text, rest, token);
  }

  lemma {:induction false} DoubleWasWritten(s: string, token: string) returns (parts: seq<Part>, rest: string)
    requires Split(s, Quoted('"'), token).Some?
    ensures s == PartsWritten(parts) + (['"'] + rest) && (forall i :: 0 <= i < |parts| ==> PartValid(parts[i]))
    ensures Split(s, Quoted('"'), token) == Split(rest, Word, token + PartsMeant(parts))
    decreases |s|
  {
    if s[0] == '"' {
      parts, rest := [], s[1..];
      assert s == [] + (['"'] + rest);
    } else {
      var first := if s[0] == '\\' then Slashed(s[1..][0]) else Plain(s[0]);
      var more := if s[0] == '\\' then s[1..][1..] else s[1..];
      assert s == PartWritten(first) + more;
      PartReads(first, more, token);
      var later;
      later, rest := DoubleWasWritten(more, token + PartMeant(first));
      parts := [first] + later;
      assert parts[1..] == later;
      assert s == PartsWritten(parts) + (['"'] + rest);
    }
    DoubleReads(parts, rest, token);
  }

  /** The piece or space a readable line starts with. */
  lemma FirstWasWritten(s: string, word: Option<string>) returns (item: Item, rest: string)
    requires s != [] && Split(s, StateOf(word), Token(word)).Some?
    ensures s == ItemWritten(item) + rest && |rest| < |s|
    ensures if item.Space? then IsSpace(item.c) else PieceValid(item.piece)
    ensures if item.Space? then Split(rest, Between, "").Some?
            else Split(rest, Word, Token(word) + Meant(item.piece)).Some?
  {
    var c, after := s[0], s[1..];
    assert s == [c] + after;
    if IsSpace(c) {
      item, rest := Space(c), after;
    } else {
      var piece;
      if c == '\'' {
        var text;
        text, rest := SingleWasWritten(after, Token(word));
        piece := Single(text);
      } else if c == '"' {
        var parts;
        parts, rest := DoubleWasWritten(after, Token(word));
        piece := Double(parts);
      } else if c == '\\' {
        piece, rest := Backslashed(after[0]), after[1..];
      } else {
        piece, rest := Bare(c), after;
      }
      item := Piece(piece);
      assert s == PieceWritten(piece) + rest;
      PieceReads(piece, rest, word);
    }
  }

  lemma {:induction false} LineWasWritten(s: string, word: Option<string>) returns (line: seq<Item>)
    requires Split(s, StateOf(word), Token(word)).Some?
    ensures LineValid(line) && Written(line) == s
    decreases |s|
  {
    if s == [] {
      line := [];
    } else {
      var item, rest := FirstWasWritten(s, word);
      var more := LineWasWritten(rest, if item.Space? then None else Some(Token(word) + Meant(item.piece)));
      line := [item] + more;
      assert line[1..] == more;
    }
  }

  // ----- main result -----

  /** A command splits into these words exactly when it is written from the grammar with these words. */
  lemma SplitIsGrammar(command: string, words: seq<string>)
    ensures Split(command, Between, "") == Some(words)
      <==> exists line :: LineValid(line) && Written(line) == command && WordsOf(line, None) == words
  {
    if Split(command, Between, "") == Some(words) {
      var line := LineWasWritten(command, None);
      LineReads(line, None);
    }
    forall line | LineValid(line) && Written(line) == command && WordsOf(line, None) == words
      ensures Split(command, Between, "") == Some(words)
    {
      LineReads(line, None);
    }
  }
}
