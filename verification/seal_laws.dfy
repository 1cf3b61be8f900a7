/** Canonical text reads back and ignores insertion order and nothing else; the bytes under a seal
    determine the domain and the payload. */
module SealLaws {
  import opened Ordering
  import opened Canonical
  import opened JsonParser
  import opened CanonicalLaws

  // ----- sorting by key -----

  predicate InKeyOrder(s: seq<Member>) {
    forall i, j :: 0 <= i < j < |s| ==> AtMost(s[i].key, s[j].key) && s[i].key != s[j].key
  }

  lemma {:induction false} InsertKeepsKeyOrder(m: Member, s: seq<Member>)
    requires InKeyOrder(s) && forall x :: x in s ==> x.key != m.key
    ensures InKeyOrder(InsertMember(m, s))
  {
    var r := InsertMember(m, s);
    if s == [] {
    } else if AtMost(m.key, s[0].key) {
      forall j | 0 < j < |r| ensures AtMost(m.key, r[j].key) && m.key != r[j].key {
        assert r[j] == s[j - 1] && r[j] in s;
        if j > 1 {
          AtMostTransitive(m.key, s[0].key, s[j - 1].key);
        }
      }
    } else {
      AtMostTotal(m.key, s[0].key);
      assert s[0] in s && forall x :: x in s[1..] ==> x in s;
      InsertKeepsKeyOrder(m, s[1..]);
      forall j | 0 < j < |r| ensures AtMost(s[0].key, r[j].key) && s[0].key != r[j].key {
        assert r[j] in InsertMember(m, s[1..]);
        if r[j] != m {
          var k :| 0 <= k < |s[1..]| && s[1..][k] == r[j];
          assert s[k + 1] == r[j];
        }
      }
    }
  }

  /** The sorted members are the members, each with its value sorted. */
  lemma {:induction false} SortedMembersAre(members: seq<Member>)
    ensures forall x :: x in SortedMembers(members) <==>
                        exists i :: 0 <= i < |members| && x == Member(members[i].key, Sorted(members[i].value))
  {
    if members == [] {
    } else {
      SortedMembersAre(members[1..]);
      var m := Member(members[0].key, Sorted(members[0].value));
      forall x ensures x in SortedMembers(members) <==>
                       exists i :: 0 <= i < |members| && x == Member(members[i].key, Sorted(members[i].value)) {
        if x in SortedMembers(members[1..]) {
          var i :| 0 <= i < |members[1..]| && x == Member(members[1..][i].key, Sorted(members[1..][i].value));
          assert x == Member(members[i + 1].key, Sorted(members[i + 1].value));
        }
        if i :| 0 <= i < |members| && x == Member(members[i].key, Sorted(members[i].value)) {
          if i > 0 {
            assert members[i] == members[1..][i - 1];
          }
        }
      }
    }
  }

  lemma {:induction false} SortedMembersInOrder(members: seq<Member>)
    requires DistinctKeys(members)
    ensures InKeyOrder(SortedMembers(members))
  {
    if members == [] {
    } else {
      SortedMembersInOrder(members[1..]);
      SortedMembersAre(members[1..]);
      InsertKeepsKeyOrder(Member(members[0].key, Sorted(members[0].value)), SortedMembers(members[1..]));
    }
  }

  lemma {:induction false} SortedItemsAre(items: seq<Json>)
    ensures forall i :: 0 <= i < |items| ==> SortedItems(items)[i] == Sorted(items[i])
  {
    if items == [] {
    } else {
      SortedItemsAre(items[1..]);
    }
  }

  lemma {:induction false} SortedIsWellFormed(j: Json)
    requires WellFormed(j)
    ensures WellFormed(Sorted(j))
    decreases j
  {
    match j {
      case Array(items) =>
        SortedItemsAre(items);
        forall i | 0 <= i < |items| ensures WellFormed(SortedItems(items)[i]) {
          SortedIsWellFormed(items[i]);
        }
      case Object(members) =>
        var s := SortedMembers(members);
        SortedMembersInOrder(members);
        SortedMembersAre(members);
        forall k | 0 <= k < |s| ensures WellFormed(s[k].value) {
          assert s[k] in s;
          var i :| 0 <= i < |members| && s[k] == Member(members[i].key, Sorted(members[i].value));
          assert members[i].value < members[i];
          SortedIsWellFormed(members[i].value);
        }
      case _ =>
    }
  }

  /** A JSON parser applied to canonical text gives the value back, its members in key order. */
  lemma CanonicalRoundTrip(j: Json)
    requires WellFormed(j)
    ensures Parse(CanonicalText(j)) == Got(Sorted(j), "")
  {
    SortedIsWellFormed(j);
    var text := CanonicalText(j);
    ValueRoundTrip(Sorted(j), "");
    assert text + "" == text;
  }

  // ----- equal as values -----

  /** Equal as values: objects are compared as mappings, whatever the order of their members. */
  predicate Same(a: Json, b: Json)
    decreases a
  {
    match a
    case Array(items) =>
      b.Array? && |b.items| == |items| && forall i :: 0 <= i < |items| ==> Same(items[i], b.items[i])
    case Object(members) =>
      && b.Object? && |b.members| == |members|
      && forall i :: 0 <= i < |members| ==>
           exists k :: 0 <= k < |b.members| && b.members[k].key == members[i].key && Same(members[i].value, b.members[k].value)
    case _ => a == b
  }

  lemma OrderedHeads(s: seq<Member>, t: seq<Member>)
    requires InKeyOrder(s) && InKeyOrder(t) && s != [] && t != [] && s[0] in t && t[0] in s
    ensures s[0] == t[0]
  {
    var i :| 0 <= i < |t| && t[i] == s[0];
    var k :| 0 <= k < |s| && s[k] == t[0];
    AtMostTotal(s[0].key, t[0].key);
  }

  /** Key order leaves no freedom: as many members, all found in the other list, is the same list. */
  lemma {:induction false} KeyOrderUnique(s: seq<Member>, t: seq<Member>)
    requires InKeyOrder(s) && InKeyOrder(t) && |s| == |t| && forall x :: x in s <==> x in t
    ensures s == t
  {
    if s == [] {
    } else {
      assert s[0] in s && t[0] in t;
      OrderedHeads(s, t);
      forall x ensures x in s[1..] <==> x in t[1..] {
        TailHas(s, x);
        TailHas(t, x);
      }
      KeyOrderUnique(s[1..], t[1..]);
      assert s == [s[0]] + s[1..] && t == [t[0]] + t[1..];
    }
  }

  lemma TailHas(s: seq<Member>, x: Member)
    requires s != [] && InKeyOrder(s)
    ensures x in s[1..] <==> x in s && x != s[0]
  {
  }

  /** Distinct keys, as many of them, and each member of one found in the other: then both ways. */
  lemma MembersFoundBothWays(s: seq<Member>, t: seq<Member>)
    requires InKeyOrder(s) && InKeyOrder(t) && |s| == |t| && forall x :: x in s ==> x in t
    ensures forall x :: x in s <==> x in t
  {
    var a, b := set x | x in s, set x | x in t;
    SetSize(s, a);
    SetSize(t, b);
    assert a <= b;
    assert |b - a| == |b| - |a|;
    assert b == a + (b - a);
    forall x ensures x in s <==> x in t {
      assert x in a <==> x in b;
    }
  }

  lemma {:induction false} SetSize(s: seq<Member>, a: set<Member>)
    requires InKeyOrder(s) && a == set x | x in s
    ensures |a| == |s|
  {
    if s != [] {
      var b := set x | x in s[1..];
      SetSize(s[1..], b);
      forall x ensures x in b <==> x in a && x != s[0] {
        TailHas(s, x);
      }
      assert a == b + {s[0]};
    } else {
      assert a == {};
    }
  }

  lemma {:induction false} SameSortsAlike(a: Json, b: Json)
    requires WellFormed(a) && WellFormed(b) && Same(a, b)
    ensures Sorted(a) == Sorted(b)
    decreases a
  {
    match a {
      case Array(items) =>
        SortedItemsAre(items);
        SortedItemsAre(b.items);
        forall i | 0 <= i < |items| ensures Sorted(items[i]) == Sorted(b.items[i]) {
          SameSortsAlike(items[i], b.items[i]);
        }
        assert SortedItems(items) == SortedItems(b.items);
      case Object(members) =>
        var s, t := SortedMembers(members), SortedMembers(b.members);
        SortedMembersAre(members);
        SortedMembersAre(b.members);
        SortedMembersInOrder(members);
        SortedMembersInOrder(b.members);
        forall x | x in s ensures x in t {
          var i :| 0 <= i < |members| && x == Member(members[i].key, Sorted(members[i].value));
          var k :| 0 <= k < |b.members| && b.members[k].key == members[i].key && Same(members[i].value, b.members[k].value);
          assert members[i].value < members[i];
          SameSortsAlike(members[i].value, b.members[k].value);
        }
        MembersFoundBothWays(s, t);
        KeyOrderUnique(s, t);
      case _ =>
    }
  }

  lemma {:induction false} SortedAlikeIsSame(a: Json, b: Json)
    requires Sorted(a) == Sorted(b)
    ensures Same(a, b)
    decreases a
  {
    match a {
      case Array(items) =>
        SortedItemsAre(items);
        SortedItemsAre(b.items);
        assert |SortedItems(items)| == |SortedItems(b.items)|;
        forall i | 0 <= i < |items| ensures Same(items[i], b.items[i]) {
          SortedAlikeIsSame(items[i], b.items[i]);
        }
      case Object(members) =>
        SortedMembersAre(members);
        SortedMembersAre(b.members);
        assert |SortedMembers(members)| == |SortedMembers(b.members)|;
        forall i | 0 <= i < |members|
          ensures exists k :: 0 <= k < |b.members| && b.members[k].key == members[i].key && Same(members[i].value, b.members[k].value)
        {
          var x := Member(members[i].key, Sorted(members[i].value));
          assert x in SortedMembers(b.members);
          var k :| 0 <= k < |b.members| && x == Member(b.members[k].key, Sorted(b.members[k].value));
          assert members[i].value < members[i];
          SortedAlikeIsSame(members[i].value, b.members[k].value);
        }
      case _ =>
    }
  }

  /** Two payloads print identically exactly when they are equal as values. */
  lemma TextIffSame(a: Json, b: Json)
    requires WellFormed(a) && WellFormed(b)
    ensures CanonicalText(a) == CanonicalText(b) <==> Same(a, b)
  {
    CanonicalRoundTrip(a);
    CanonicalRoundTrip(b);
    if Same(a, b) {
      SameSortsAlike(a, b);
    }
    if Sorted(a) == Sorted(b) {
      SortedAlikeIsSame(a, b);
    }
  }

  // ----- no control characters -----

  predicate Plain(s: string) {
    forall i :: 0 <= i < |s| ==> s[i] as int >= 0x20
  }

  lemma {:induction false} EscapedIsPlain(s: string)
    ensures Plain(EscapedAll(s))
  {
    if s == [] {
    } else {
      EscapedIsPlain(s[1..]);
      EscapedCharIsPlain(s[0]);
    }
  }

  lemma EscapedCharIsPlain(c: char)
    ensures Plain(Escaped(c))
  {
  }

  lemma NumberIsPlain(j: Json)
    requires (j.Int? || j.Float?) && WellFormed(j)
    ensures Plain(Printed(j))
  {
    if j.Int? {
      IntReadsBack(j.n);
    }
    NumberTextShape(Printed(j));
  }

  lemma {:induction false} PrintedIsPlain(j: Json)
    requires WellFormed(j)
    ensures Plain(Printed(j))
    decreases j, 1
  {
    match j {
      case Int(_) => NumberIsPlain(j);
      case Float(_) => NumberIsPlain(j);
      case Str(s) => EscapedIsPlain(s);
      case Array(items) => if items != [] { ItemsArePlain(items); }
      case Object(members) => if members != [] { MembersArePlain(members); }
      case _ =>
    }
  }

  lemma {:induction false} ItemsArePlain(items: seq<Json>)
    requires items != [] && forall i :: 0 <= i < |items| ==> WellFormed(items[i])
    ensures Plain(PrintedItems(items))
    decreases items, 0
  {
    PrintedIsPlain(items[0]);
    if |items| > 1 {
      ItemsArePlain(items[1..]);
    }
  }

  lemma {:induction false} MembersArePlain(members: seq<Member>)
    requires members != [] && forall i :: 0 <= i < |members| ==> WellFormed(members[i].value)
    ensures Plain(PrintedMembers(members))
    decreases members, 0
  {
    var m := members[0];
    assert m.value < m;
    EscapedIsPlain(m.key);
    PrintedIsPlain(m.value);
    if |members| > 1 {
      MembersArePlain(members[1..]);
    }
  }

  // ----- UTF-8 -----

  /** How many bytes a character takes, read off its first byte. */
  function Width(first: byte): nat {
    if first < 0xC0 then 1 else if first < 0xE0 then 2 else if first < 0xF0 then 3 else 4
  }

  function CodePoint(b: seq<byte>): int
    requires b != [] && Width(b[0]) <= |b|
  {
    var first: int := b[0];
    if first < 0xC0 then first
    else if first < 0xE0 then 64 * (first - 0xC0) + (b[1] as int - 0x80)
    else if first < 0xF0 then 4096 * (first - 0xE0) + 64 * (b[1] as int - 0x80) + (b[2] as int - 0x80)
    else 262144 * (first - 0xF0) + 4096 * (b[1] as int - 0x80) + 64 * (b[2] as int - 0x80) + (b[3] as int - 0x80)
  }

  lemma SixBits(n: nat)
    ensures n == 64 * (n / 64) + n % 64
    ensures n / 64 == 64 * (n / 4096) + n / 64 % 64
    ensures n / 4096 == 64 * (n / 262144) + n / 4096 % 64
  {
    assert n / 64 / 64 == n / 4096 && n / 4096 / 64 == n / 262144;
  }

  lemma CharDecodes(c: char)
    ensures Width(Utf8Char(c)[0]) == |Utf8Char(c)| && CodePoint(Utf8Char(c)) == c as int
    ensures FIELD_SEPARATOR in Utf8Char(c) <==> c as int == 0x1f
  {
    SixBits(c as int);
    assert 0 <= c as int < 0x11_0000;
  }

  lemma {:induction false} Utf8Injective(s: string, t: string)
    requires Utf8(s) == Utf8(t)
    ensures s == t
  {
    if s == [] || t == [] {
    } else {
      var a, b := Utf8Char(s[0]), Utf8Char(t[0]);
      CharDecodes(s[0]);
      CharDecodes(t[0]);
      assert Utf8(s)[0] == a[0] && Utf8(t)[0] == b[0];
      assert Utf8(s)[..|a|] == a && Utf8(t)[..|b|] == b;
      assert Utf8(s)[|a|..] == Utf8(s[1..]) && Utf8(t)[|b|..] == Utf8(t[1..]);
      assert s[0] as int == t[0] as int;
      Utf8Injective(s[1..], t[1..]);
      assert s == [s[0]] + s[1..] && t == [t[0]] + t[1..];
    }
  }

  lemma {:induction false} PlainHasNoSeparator(s: string)
    requires Plain(s)
    ensures FIELD_SEPARATOR !in Utf8(s)
  {
    if s == [] {
    } else {
      CharDecodes(s[0]);
      PlainHasNoSeparator(s[1..]);
    }
  }

  // ----- seals -----

  lemma NoMarkerAfter(a: seq<byte>, x: seq<byte>, marker: byte, k: nat)
    requires marker !in x && k < |a + [marker] + x| && (a + [marker] + x)[k] == marker
    ensures k <= |a|
  {
  }

  /** A sequence with a marker and no marker after it splits in one way only. */
  lemma LastMarkerSplits(a: seq<byte>, x: seq<byte>, b: seq<byte>, y: seq<byte>, marker: byte)
    requires a + [marker] + x == b + [marker] + y && marker !in x && marker !in y
    ensures a == b && x == y
  {
    var s := a + [marker] + x;
    NoMarkerAfter(a, x, marker, |b|);
    NoMarkerAfter(b, y, marker, |a|);
    assert s[..|a|] == a && s[..|b|] == b;
    assert s[|a| + 1..] == x && s[|b| + 1..] == y;
  }

  /** The bytes fed to the digest determine the domain and, up to member order, the payload: even a
      domain that contains the separator cannot move the boundary. */
  lemma PreimageDeterminesBoth(domain: string, j: Json, domain': string, j': Json)
    requires WellFormed(j) && WellFormed(j')
    ensures Preimage(domain, j) == Preimage(domain', j') <==> domain == domain' && Same(j, j')
  {
    TextIffSame(j, j');
    SortedIsWellFormed(j);
    SortedIsWellFormed(j');
    PrintedIsPlain(Sorted(j));
    PrintedIsPlain(Sorted(j'));
    var text, text' := Utf8(CanonicalText(j)), Utf8(CanonicalText(j'));
    PlainHasNoSeparator(CanonicalText(j));
    PlainHasNoSeparator(CanonicalText(j'));
    if Preimage(domain, j) == Preimage(domain', j') {
      var head := DOMAIN_SEPARATOR + [FIELD_SEPARATOR];
      LastMarkerSplits(head + Utf8(domain), text, head + Utf8(domain'), text', FIELD_SEPARATOR);
      assert (head + Utf8(domain))[|head|..] == Utf8(domain);
      assert (head + Utf8(domain'))[|head|..] == Utf8(domain');
      Utf8Injective(domain, domain');
      Utf8Injective(CanonicalText(j), CanonicalText(j'));
    }
  }

  // ----- normalisation -----

  /** Nothing in it that cannot be encoded reproducibly. */
  predicate Encodable(v: Value)
    decreases v
  {
    match v
    case NonFinite => false
    case Foreign => false
    case List(elements) => forall i :: 0 <= i < |elements| ==> Encodable(elements[i])
    case Dict(entries) => forall i :: 0 <= i < |entries| ==> entries[i].key.Text? && Encodable(entries[i].item)
    case _ => true
  }

  /** What the language guarantees: dictionaries have distinct keys, and float texts are floats. */
  predicate Proper(v: Value)
    decreases v
  {
    match v
    case Real(repr) => IsFloatText(repr)
    case List(elements) => forall i :: 0 <= i < |elements| ==> Proper(elements[i])
    case Dict(entries) =>
      && (forall i, j :: 0 <= i < j < |entries| ==> entries[i].key != entries[j].key)
      && forall i :: 0 <= i < |entries| ==> Proper(entries[i].item)
    case _ => true
  }

  function AsValue(j: Json): Value
    decreases j
  {
    match j
    case Null => None
    case Bool(b) => Truth(b)
    case Int(n) => Integer(n)
    case Float(repr) => Real(repr)
    case Str(s) => Chars(s)
    case Array(items) => List(AsElements(items))
    case Object(members) => Dict(AsEntries(members))
  }

  function AsElements(items: seq<Json>): (r: seq<Value>)
    ensures |r| == |items|
    decreases items
  {
    if items == [] then [] else [AsValue(items[0])] + AsElements(items[1..])
  }

  function AsEntries(members: seq<Member>): (r: seq<Entry>)
    ensures |r| == |members|
    decreases members
  {
    if members == [] then []
    else
      var first := members[0];
      assert first.value < first;
      [Entry(Text(first.key), AsValue(first.value))] + AsEntries(members[1..])
  }

  lemma {:induction false} AsElementsAppend(items: seq<Json>, j: Json)
    ensures AsElements(items + [j]) == AsElements(items) + [AsValue(j)]
  {
    if items == [] {
      assert items + [j] == [j];
    } else {
      assert (items + [j])[1..] == items[1..] + [j];
      AsElementsAppend(items[1..], j);
    }
  }

  lemma {:induction false} AsEntriesAppend(members: seq<Member>, m: Member)
    ensures AsEntries(members + [m]) == AsEntries(members) + [Entry(Text(m.key), AsValue(m.value))]
  {
    if members == [] {
      assert members + [m] == [m];
    } else {
      assert (members + [m])[1..] == members[1..] + [m];
      AsEntriesAppend(members[1..], m);
    }
  }

  /** Assigning a key the dictionary does not have yet appends it. */
  lemma {:induction false} PutNew(members: seq<Member>, key: string, value: Json)
    requires forall i :: 0 <= i < |members| ==> members[i].key != key
    ensures Put(members, key, value) == members + [Member(key, value)]
  {
    if members == [] {
    } else {
      PutNew(members[1..], key, value);
      assert members + [Member(key, value)] == [members[0]] + (members[1..] + [Member(key, value)]);
    }
  }

  /** Normalisation succeeds exactly on encodable values, and then changes nothing. */
  lemma {:induction false} NormalisedExact(v: Value)
    requires Proper(v)
    ensures Normalised(v).Ok? <==> Encodable(v)
    ensures Normalised(v).Ok? ==> WellFormed(Normalised(v).value) && AsValue(Normalised(v).value) == v
    decreases v, 1
  {
    match v {
      case List(elements) => ElementsExact(elements, []);
      case Dict(entries) => EntriesExact(entries, []);
      case _ =>
    }
  }

  lemma {:induction false} ElementsExact(elements: seq<Value>, done: seq<Json>)
    requires forall i :: 0 <= i < |elements| ==> Proper(elements[i])
    requires forall i :: 0 <= i < |done| ==> WellFormed(done[i])
    ensures
      var r := NormalisedElements(elements, done);
      && (r.Ok? <==> forall i :: 0 <= i < |elements| ==> Encodable(elements[i]))
      && (r.Ok? ==> AsElements(r.value) == AsElements(done) + elements)
      && (r.Ok? ==> forall i :: 0 <= i < |r.value| ==> WellFormed(r.value[i]))
    decreases elements, 0
  {
    if elements == [] {
    } else {
      NormalisedExact(elements[0]);
      var r := Normalised(elements[0]);
      if r.Ok? {
        AsElementsAppend(done, r.value);
        ElementsExact(elements[1..], done + [r.value]);
        assert AsElements(done) + elements == AsElements(done + [r.value]) + elements[1..];
        assert forall i :: 0 < i < |elements| ==> elements[i] == elements[1..][i - 1];
      }
    }
  }

  /** The keys read so far and those to come are all different. */
  predicate Fresh(entries: seq<Entry>, done: seq<Member>) {
    && (forall i, j :: 0 <= i < j < |entries| ==> entries[i].key != entries[j].key)
    && DistinctKeys(done)
    && forall i, j :: 0 <= i < |done| && 0 <= j < |entries| ==> entries[j].key != Text(done[i].key)
  }

  lemma {:induction false} EntriesExact(entries: seq<Entry>, done: seq<Member>)
    requires forall i :: 0 <= i < |entries| ==> Proper(entries[i].item)
    requires Fresh(entries, done) && forall i :: 0 <= i < |done| ==> WellFormed(done[i].value)
    ensures
      var r := NormalisedEntries(entries, done);
      && (r.Ok? <==> forall i :: 0 <= i < |entries| ==> entries[i].key.Text? && Encodable(entries[i].item))
      && (r.Ok? ==> AsEntries(r.value) == AsEntries(done) + entries)
      && (r.Ok? ==> DistinctKeys(r.value) && forall i :: 0 <= i < |r.value| ==> WellFormed(r.value[i].value))
    decreases entries, 0
  {
    if entries == [] {
    } else {
      var first := entries[0];
      assert first.item < first;
      NormalisedExact(first.item);
      var r := Normalised(first.item);
      if first.key.Text? && r.Ok? {
        var m := Member(first.key.text, r.value);
        PutNew(done, m.key, m.value);
        AsEntriesAppend(done, m);
        EntriesExact(entries[1..], done + [m]);
        assert AsEntries(done) + entries == AsEntries(done + [m]) + entries[1..];
        assert forall i :: 0 < i < |entries| ==> entries[i] == entries[1..][i - 1];
      }
    }
  }

  /** A seal is issued exactly for a non-empty domain and an encodable payload; two seals are equal
      exactly when the domains are and the payloads are equal as values. */
  lemma SealsAreExact(domain: string, payload: Value, domain': string, payload': Value)
    requires Proper(payload) && Proper(payload')
    ensures SealOf(domain, payload).Ok? <==> domain != "" && Encodable(payload)
    ensures SealOf(domain, payload).Ok? && SealOf(domain', payload').Ok? ==>
      (SealOf(domain, payload) == SealOf(domain', payload') <==>
       domain == domain' && Same(Normalised(payload).value, Normalised(payload').value))
  {
    NormalisedExact(payload);
    NormalisedExact(payload');
    if SealOf(domain, payload).Ok? && SealOf(domain', payload').Ok? {
      PreimageDeterminesBoth(domain, Normalised(payload).value, domain', Normalised(payload').value);
    }
  }

  /** Somewhere in the payload there is what the refusal names. */
  predicate Offends(v: Value, e: Refusal)
    decreases v
  {
    match v
    case NonFinite => e == NonFiniteFloat
    case Foreign => e == Unserialisable
    case List(elements) => exists i :: 0 <= i < |elements| && Offends(elements[i], e)
    case Dict(entries) =>
      exists i :: 0 <= i < |entries| && ((e == NonTextKey && entries[i].key.NotText?) || Offends(entries[i].item, e))
    case _ => false
  }

  lemma {:induction false} RefusalNamesCause(v: Value)
    ensures Normalised(v).Refused? ==> Offends(v, Normalised(v).error)
    decreases v, 1
  {
    match v {
      case List(elements) => ElementsCause(elements, []);
      case Dict(entries) => EntriesCause(entries, []);
      case _ =>
    }
  }

  lemma {:induction false} ElementsCause(elements: seq<Value>, done: seq<Json>)
    ensures var r := NormalisedElements(elements, done);
      r.Refused? ==> exists i :: 0 <= i < |elements| && Offends(elements[i], r.error)
    decreases elements, 0
  {
    if elements == [] {
    } else {
      RefusalNamesCause(elements[0]);
      var r := Normalised(elements[0]);
      if r.Ok? {
        ElementsCause(elements[1..], done + [r.value]);
        assert forall i :: 0 <= i < |elements[1..]| ==> elements[1..][i] == elements[i + 1];
      }
    }
  }

  lemma {:induction false} EntriesCause(entries: seq<Entry>, done: seq<Member>)
    ensures var r := NormalisedEntries(entries, done);
      r.Refused? ==>
        exists i :: 0 <= i < |entries| && ((r.error == NonTextKey && entries[i].key.NotText?) || Offends(entries[i].item, r.error))
    decreases entries, 0
  {
    if entries == [] {
    } else if entries[0].key.Text? {
      var first := entries[0];
      assert first.item < first;
      RefusalNamesCause(first.item);
      var r := Normalised(first.item);
      if r.Ok? {
        EntriesCause(entries[1..], Put(done, first.key.text, r.value));
        assert forall i :: 0 <= i < |entries[1..]| ==> entries[1..][i] == entries[i + 1];
      }
    }
  }

  /** A refused seal names its cause: the empty domain first, else something in the payload. */
  lemma SealRefusalNamesCause(domain: string, payload: Value)
    ensures SealOf(domain, payload).Refused? ==>
      if domain == "" then SealOf(domain, payload).error == EmptyDomain else Offends(payload, SealOf(domain, payload).error)
  {
    RefusalNamesCause(payload);
  }
}
