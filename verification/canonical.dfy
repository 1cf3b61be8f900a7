/** Canonical JSON text: normalisation, printing, UTF-8 and the preimage of a seal. */
module Canonical {
  import opened Ordering

  // ----- payloads -----

  datatype Key = Text(text: string) | NotText(id: int)

  /** What a caller may pass in. A finite float is carried as its shortest decimal text. */
  datatype Value =
    | None
    | Truth(b: bool)
    | Integer(n: int)
    | Real(repr: string)
    | NonFinite
    | Chars(s: string)
    | List(elements: seq<Value>)
    | Dict(entries: seq<Entry>)
    | Foreign

  datatype Entry = Entry(key: Key, item: Value)

  /** What is printed. */
  datatype Json =
    | Null
    | Bool(b: bool)
    | Int(n: int)
    | Float(repr: string)
    | Str(s: string)
    | Array(items: seq<Json>)
    | Object(members: seq<Member>)

  datatype Member = Member(key: string, value: Json)

  datatype Refusal = NonFiniteFloat | NonTextKey | Unserialisable | EmptyDomain

  datatype Result<+T> = Ok(value: T) | Refused(error: Refusal)

  // ----- normalisation -----

  /** Assignment to a dictionary that remembers insertion order. */
  function Put(members: seq<Member>, key: string, value: Json): seq<Member> {
    if members == [] then [Member(key, value)]
    else if members[0].key == key then [Member(key, value)] + members[1..]
    else [members[0]] + Put(members[1..], key, value)
  }

  function Normalised(v: Value): Result<Json>
    decreases v
  {
    match v
    case None => Ok(Null)
    case Truth(b) => Ok(Bool(b))
    case Integer(n) => Ok(Int(n))
    case Real(repr) => Ok(Float(repr))
    case NonFinite => Refused(NonFiniteFloat)
    case Chars(s) => Ok(Str(s))
    case List(elements) =>
      var r := NormalisedElements(elements, []);
      if r.Ok? then Ok(Array(r.value)) else Refused(r.error)
    case Dict(entries) =>
      var r := NormalisedEntries(entries, []);
      if r.Ok? then Ok(Object(r.value)) else Refused(r.error)
    case Foreign => Refused(Unserialisable)
  }

  function NormalisedElements(elements: seq<Value>, done: seq<Json>): Result<seq<Json>>
    decreases elements
  {
    if elements == [] then Ok(done)
    else
      var r := Normalised(elements[0]);
      if r.Refused? then Refused(r.error) else NormalisedElements(elements[1..], done + [r.value])
  }

  function NormalisedEntries(entries: seq<Entry>, done: seq<Member>): Result<seq<Member>>
    decreases entries
  {
    if entries == [] then Ok(done)
    else if entries[0].key.NotText? then Refused(NonTextKey)
    else
      var first := entries[0];
      assert first.item < first;
      var r := Normalised(first.item);
      if r.Refused? then Refused(r.error)
      else NormalisedEntries(entries[1..], Put(done, first.key.text, r.value))
  }

  method Normalise(v: Value) returns (result: Result<Json>)
    ensures result == Normalised(v)
    decreases v
  {
    match v {
      case None => return Ok(Null);
      case Truth(b) => return Ok(Bool(b));
      case Integer(n) => return Ok(Int(n));
      case Real(repr) => return Ok(Float(repr));
      case NonFinite => return Refused(NonFiniteFloat);
      case Chars(s) => return Ok(Str(s));
      case List(elements) =>
        var items: seq<Json> := [];
        var i := 0;
        while i < |elements|
          invariant i <= |elements|
          invariant NormalisedElements(elements, []) == NormalisedElements(elements[i..], items)
        {
          var r := Normalise(elements[i]);
          assert elements[i..][0] == elements[i] && elements[i..][1..] == elements[i + 1..];
          if r.Refused? {
            return Refused(r.error);
          }
          items := items + [r.value];
          i := i + 1;
        }
        return Ok(Array(items));
      case Dict(entries) =>
        var normalised: seq<Member> := [];
        var i := 0;
        while i < |entries|
          invariant i <= |entries|
          invariant NormalisedEntries(entries, []) == NormalisedEntries(entries[i..], normalised)
        {
          assert entries[i..][0] == entries[i] && entries[i..][1..] == entries[i + 1..];
          if entries[i].key.NotText? {
            return Refused(NonTextKey);
          }
          var r := Normalise(entries[i].item);
          if r.Refused? {
            return Refused(r.error);
          }
          normalised := Put(normalised, entries[i].key.text, r.value);
          i := i + 1;
        }
        return Ok(Object(normalised));
      case Foreign => return Refused(Unserialisable);
    }
  }

  // ----- key order -----

  function InsertMember(m: Member, s: seq<Member>): (r: seq<Member>)
    ensures |r| == |s| + 1
    ensures forall x :: x in r <==> x == m || x in s
  {
    if s == [] || AtMost(m.key, s[0].key) then [m] + s
    else
      assert s == [s[0]] + s[1..];
      [s[0]] + InsertMember(m, s[1..])
  }

  /** The same value with the members of every object in key order. */
  function Sorted(j: Json): Json
    decreases j
  {
    match j
    case Array(items) => Array(SortedItems(items))
    case Object(members) => Object(SortedMembers(members))
    case _ => j
  }

  function SortedItems(items: seq<Json>): (r: seq<Json>)
    ensures |r| == |items|
    decreases items
  {
    if items == [] then [] else [Sorted(items[0])] + SortedItems(items[1..])
  }

  function SortedMembers(members: seq<Member>): (r: seq<Member>)
    ensures |r| == |members|
    decreases members
  {
    if members == [] then []
    else InsertMember(Member(members[0].key, Sorted(members[0].value)), SortedMembers(members[1..]))
  }

  // ----- printing -----

  function Digit(d: nat): char
    requires d < 10
  {
    '0' + d as char
  }

  function Digits(n: nat): string {
    if n < 10 then [Digit(n)] else Digits(n / 10) + [Digit(n % 10)]
  }

  function IntText(n: int): string {
    if n < 0 then "-" + Digits(-n) else Digits(n)
  }

  function HexDigit(d: nat): char
    requires d < 16
  {
    if d < 10 then '0' + d as char else 'a' + (d - 10) as char
  }

  function Escaped(c: char): string {
    if c == '"' then "\\\""
    else if c == '\\' then "\\\\"
    else if c == '\n' then "\\n"
    else if c == '\r' then "\\r"
    else if c == '\t' then "\\t"
    else if c as int == 0x08 then "\\b"
    else if c as int == 0x0c then "\\f"
    else if c as int < 0x20 then "\\u00" + [HexDigit(c as int / 16), HexDigit(c as int % 16)]
    else [c]
  }

  function EscapedAll(s: string): string {
    if s == [] then [] else Escaped(s[0]) + EscapedAll(s[1..])
  }

  function Quoted(s: string): string {
    "\"" + EscapedAll(s) + "\""
  }

  /** Compact JSON, members in the order given. */
  function Printed(j: Json): string
    decreases j
  {
    match j
    case Null => "null"
    case Bool(b) => if b then "true" else "false"
    case Int(n) => IntText(n)
    case Float(repr) => repr
    case Str(s) => Quoted(s)
    case Array(items) => "[" + if items == [] then "]" else PrintedItems(items)
    case Object(members) => "{" + if members == [] then "}" else PrintedMembers(members)
  }

  function PrintedItems(items: seq<Json>): string
    requires items != []
    decreases items
  {
    Printed(items[0]) + if |items| == 1 then "]" else "," + PrintedItems(items[1..])
  }

  function PrintedMembers(members: seq<Member>): string
    requires members != []
    decreases members
  {
    Quoted(members[0].key) + ":" + Printed(members[0].value)
    + if |members| == 1 then "}" else "," + PrintedMembers(members[1..])
  }

  function CanonicalText(j: Json): string {
    Printed(Sorted(j))
  }

  // ----- UTF-8 -----

  type byte = x: int | 0 <= x < 256

  function Utf8Char(c: char): (r: seq<byte>)
    ensures r != []
  {
    var n := c as int;
    if n < 0x80 then [n]
    else if n < 0x800 then [0xC0 + n / 64, 0x80 + n % 64]
    else if n < 0x1_0000 then [0xE0 + n / 4096, 0x80 + n / 64 % 64, 0x80 + n % 64]
    else [0xF0 + n / 262144, 0x80 + n / 4096 % 64, 0x80 + n / 64 % 64, 0x80 + n % 64]
  }

  function Utf8(s: string): seq<byte> {
    if s == [] then [] else Utf8Char(s[0]) + Utf8(s[1..])
  }

  // ----- seals -----

  /** "latent-compass/seal/v1" in ASCII, which UTF-8 leaves as it is. */
  const DOMAIN_SEPARATOR: seq<byte> :=
    [0x6c, 0x61, 0x74, 0x65, 0x6e, 0x74, 0x2d, 0x63, 0x6f, 0x6d,
     0x70, 0x61, 0x73, 0x73, 0x2f, 0x73, 0x65, 0x61, 0x6c, 0x2f, 0x76, 0x31]

  const FIELD_SEPARATOR: byte := 0x1f

  function Preimage(domain: string, j: Json): seq<byte> {
    DOMAIN_SEPARATOR + [FIELD_SEPARATOR] + Utf8(domain) + [FIELD_SEPARATOR] + Utf8(CanonicalText(j))
  }

  /** The digest as a free term over the bytes it was fed. */
  datatype Digest = Sha256(preimage: seq<byte>)

  class Hasher {
    var fed: seq<byte>

    constructor ()
      ensures fed == []
    {
      fed := [];
    }

    method Update(bytes: seq<byte>)
      modifies this
      ensures fed == old(fed) + bytes
    {
      fed := fed + bytes;
    }
  }

  lemma FedInPieces(separator: seq<byte>, domain: seq<byte>, text: seq<byte>)
    ensures [] + separator + [FIELD_SEPARATOR] + domain + [FIELD_SEPARATOR] + text
         == separator + [FIELD_SEPARATOR] + domain + [FIELD_SEPARATOR] + text
  {
    assert [] + separator == separator;
  }

  /** The seal of a payload: refused for an empty domain, then for whatever normalisation refuses. */
  method Seal(domain: string, payload: Value) returns (result: Result<Digest>)
    ensures result == SealOf(domain, payload)
  {
    if domain == "" {
      return Refused(EmptyDomain);
    }
    var digest := new Hasher();
    digest.Update(DOMAIN_SEPARATOR);
    digest.Update([FIELD_SEPARATOR]);
    digest.Update(Utf8(domain));
    digest.Update([FIELD_SEPARATOR]);
    var normalised := Normalise(payload);
    if normalised.Refused? {
      return Refused(normalised.error);
    }
    digest.Update(Utf8(CanonicalText(normalised.value)));
    FedInPieces(DOMAIN_SEPARATOR, Utf8(domain), Utf8(CanonicalText(normalised.value)));
    result := Ok(Sha256(digest.fed));
  }

  function SealOf(domain: string, payload: Value): Result<Digest> {
    if domain == "" then Refused(EmptyDomain)
    else
      var normalised := Normalised(payload);
      if normalised.Refused? then Refused(normalised.error) else Ok(Sha256(Preimage(domain, normalised.value)))
  }
}
