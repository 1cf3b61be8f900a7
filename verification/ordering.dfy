/** Sorting, as the code relies on it: reals in ascending order, names by code point. */
module Ordering {

  // ----- code point order on strings -----

  predicate AtMost(a: string, b: string) {
    if a == [] then true
    else if b == [] then false
    else if a[0] != b[0] then a[0] < b[0]
    else AtMost(a[1..], b[1..])
  }

  lemma {:induction false} AtMostTotal(a: string, b: string)
    ensures AtMost(a, b) || AtMost(b, a)
    ensures AtMost(a, b) && AtMost(b, a) ==> a == b
  {
    if a == [] || b == [] || a[0] != b[0] {
    } else {
      AtMostTotal(a[1..], b[1..]);
      assert a == [a[0]] + a[1..] && b == [b[0]] + b[1..];
    }
  }

  lemma {:induction false} AtMostTransitive(a: string, b: string, c: string)
    requires AtMost(a, b) && AtMost(b, c)
    ensures AtMost(a, c)
  {
    if a == [] || b == [] || c == [] || a[0] != b[0] || b[0] != c[0] {
    } else {
      AtMostTransitive(a[1..], b[1..], c[1..]);
    }
  }

  // ----- reals -----

  predicate Ascending(s: seq<real>) {
    forall i, j :: 0 <= i < j < |s| ==> s[i] <= s[j]
  }

  function Insert(x: real, s: seq<real>): (r: seq<real>)
    ensures |r| == |s| + 1 && multiset(r) == multiset(s) + multiset{x}
  {
    if s == [] then [x]
    else if x <= s[0] then [x] + s
    else
      assert s == [s[0]] + s[1..];
      [s[0]] + Insert(x, s[1..])
  }

  function Sort(s: seq<real>): (r: seq<real>)
    ensures |r| == |s| && multiset(r) == multiset(s)
  {
    if s == [] then []
    else
      assert s == [s[0]] + s[1..];
      Insert(s[0], Sort(s[1..]))
  }

  lemma {:induction false} InsertAscending(x: real, s: seq<real>)
    requires Ascending(s)
    ensures Ascending(Insert(x, s))
  {
    if s == [] || x <= s[0] {
    } else {
      InsertAscending(x, s[1..]);
      var r := Insert(x, s[1..]);
      forall i | 0 <= i < |r| ensures s[0] <= r[i] {
        assert r[i] in multiset(r);
        assert r[i] in multiset(s[1..]) + multiset{x};
        if r[i] != x {
          assert r[i] in s[1..];
        }
      }
    }
  }

  lemma {:induction false} SortAscending(s: seq<real>)
    ensures Ascending(Sort(s))
  {
    if s == [] {
    } else {
      SortAscending(s[1..]);
      InsertAscending(s[0], Sort(s[1..]));
    }
  }

  lemma Behead<T>(s: seq<T>)
    requires s != []
    ensures multiset(s[1..]) == multiset(s) - multiset{s[0]}
  {
    assert s == [s[0]] + s[1..];
  }

  lemma RemoveOne<T>(s: seq<T>, k: nat)
    requires k < |s|
    ensures multiset(s[..k] + s[k + 1..]) == multiset(s) - multiset{s[k]}
  {
    assert s == s[..k] + ([s[k]] + s[k + 1..]);
  }

  /** Where a rearrangement keeps the first element; dropping both leaves rearrangements. */
  lemma MatchHead<T>(s: seq<T>, t: seq<T>) returns (k: nat)
    requires s != [] && multiset(s) == multiset(t)
    ensures k < |t| && t[k] == s[0] && multiset(s[1..]) == multiset(t[..k] + t[k + 1..])
  {
    assert s[0] in multiset(s);
    k :| 0 <= k < |t| && t[k] == s[0];
    RemoveOne(t, k);
    Behead(s);
  }

  lemma HeadIsLeast(s: seq<real>, x: real)
    requires Ascending(s) && x in multiset(s)
    ensures s != [] && s[0] <= x
  {
    var i :| 0 <= i < |s| && s[i] == x;
  }

  lemma HeadsAgree(s: seq<real>, t: seq<real>)
    requires Ascending(s) && Ascending(t) && s != [] && multiset(s) == multiset(t)
    ensures t != [] && s[0] == t[0] && multiset(s[1..]) == multiset(t[1..])
  {
    assert s[0] in multiset(s);
    HeadIsLeast(t, s[0]);
    assert t[0] in multiset(t);
    HeadIsLeast(s, t[0]);
    Behead(s);
    Behead(t);
  }

  /** Two ascending arrangements of the same values are equal. */
  lemma {:induction false} AscendingUnique(s: seq<real>, t: seq<real>)
    requires Ascending(s) && Ascending(t) && multiset(s) == multiset(t)
    ensures s == t
  {
    if s == [] {
      assert |multiset(t)| == 0;
    } else {
      HeadsAgree(s, t);
      AscendingUnique(s[1..], t[1..]);
      assert s == [s[0]] + s[1..] && t == [t[0]] + t[1..];
    }
  }

  lemma SortDependsOnlyOnContents(s: seq<real>, t: seq<real>)
    requires multiset(s) == multiset(t)
    ensures Sort(s) == Sort(t)
  {
    SortAscending(s);
    SortAscending(t);
    AscendingUnique(Sort(s), Sort(t));
  }

  /** Every value is at most the one at the same place in the other list. */
  predicate Dominated(s: seq<real>, t: seq<real>) {
    |s| == |t| && forall i :: 0 <= i < |s| ==> s[i] <= t[i]
  }

  function CountAtMost(s: seq<real>, v: real): nat {
    if s == [] then 0 else (if s[0] <= v then 1 else 0) + CountAtMost(s[1..], v)
  }

  lemma {:induction false} InsertCount(x: real, s: seq<real>, v: real)
    ensures CountAtMost(Insert(x, s), v) == CountAtMost(s, v) + if x <= v then 1 else 0
  {
    if s == [] || x <= s[0] {
    } else {
      InsertCount(x, s[1..], v);
    }
  }

  lemma {:induction false} SortCount(s: seq<real>, v: real)
    ensures CountAtMost(Sort(s), v) == CountAtMost(s, v)
  {
    if s == [] {
    } else {
      SortCount(s[1..], v);
      InsertCount(s[0], Sort(s[1..]), v);
    }
  }

  /** In an ascending list, rank `k` is at most `v` iff more than `k` values are. */
  lemma {:induction false} RankIffCount(s: seq<real>, k: nat, v: real)
    requires Ascending(s) && k < |s|
    ensures s[k] <= v <==> k < CountAtMost(s, v)
  {
    if s[0] > v {
      NoneAtMost(s, v);
    } else if k > 0 {
      RankIffCount(s[1..], k - 1, v);
    }
  }

  lemma {:induction false} NoneAtMost(s: seq<real>, v: real)
    requires forall i :: 0 <= i < |s| ==> s[i] > v
    ensures CountAtMost(s, v) == 0
  {
    if s == [] {
    } else {
      NoneAtMost(s[1..], v);
    }
  }

  lemma {:induction false} DominatedCount(s: seq<real>, t: seq<real>, v: real)
    requires Dominated(s, t)
    ensures CountAtMost(t, v) <= CountAtMost(s, v)
  {
    if s == [] {
    } else {
      DominatedCount(s[1..], t[1..], v);
    }
  }

  /** Order statistics are monotone: raising values one by one raises every rank. */
  lemma SortMonotone(s: seq<real>, t: seq<real>)
    requires Dominated(s, t)
    ensures Dominated(Sort(s), Sort(t))
  {
    SortAscending(s);
    SortAscending(t);
    forall k | 0 <= k < |s| ensures Sort(s)[k] <= Sort(t)[k] {
      var v := Sort(t)[k];
      RankIffCount(Sort(t), k, v);
      RankIffCount(Sort(s), k, v);
      SortCount(s, v);
      SortCount(t, v);
      DominatedCount(s, t, v);
    }
  }

  // ----- ranks by counting -----

  function CountBelow(s: seq<real>, v: real): nat {
    if s == [] then 0 else (if s[0] < v then 1 else 0) + CountBelow(s[1..], v)
  }

  lemma {:induction false} InsertCountBelow(x: real, s: seq<real>, v: real)
    ensures CountBelow(Insert(x, s), v) == CountBelow(s, v) + if x < v then 1 else 0
  {
    if s == [] || x <= s[0] {
    } else {
      InsertCountBelow(x, s[1..], v);
    }
  }

  lemma {:induction false} SortCountBelow(s: seq<real>, v: real)
    ensures CountBelow(Sort(s), v) == CountBelow(s, v)
  {
    if s == [] {
    } else {
      SortCountBelow(s[1..], v);
      InsertCountBelow(s[0], Sort(s[1..]), v);
    }
  }

  /** In an ascending list at most `k` values are below the one of rank `k`. */
  lemma {:induction false} RankBoundsBelow(s: seq<real>, k: nat)
    requires Ascending(s) && k < |s|
    ensures CountBelow(s, s[k]) <= k
  {
    if k == 0 {
      NoneBelow(s, s[0]);
    } else {
      RankBoundsBelow(s[1..], k - 1);
    }
  }

  lemma {:induction false} NoneBelow(s: seq<real>, v: real)
    requires forall i :: 0 <= i < |s| ==> v <= s[i]
    ensures CountBelow(s, v) == 0
  {
    if s == [] {
    } else {
      NoneBelow(s[1..], v);
    }
  }

  /** `v` is one of the values; at most `k` are below it and more than `k` are not above it. */
  predicate IsRank(s: seq<real>, k: nat, v: real) {
    v in s && CountBelow(s, v) <= k < CountAtMost(s, v)
  }

  /** Counting finds the same value at rank `k` as sorting does, and no other. */
  lemma RankByCounting(s: seq<real>, k: nat, v: real)
    requires k < |s|
    ensures IsRank(s, k, v) <==> v == Sort(s)[k]
  {
    var sorted := Sort(s);
    SortAscending(s);
    SortCount(s, v);
    SortCountBelow(s, v);
    RankIffCount(sorted, k, v);
    if v == sorted[k] {
      RankBoundsBelow(sorted, k);
      assert v in multiset(sorted);
      assert v in multiset(s);
    } else if IsRank(s, k, v) {
      RankAboveBelow(sorted, k, v);
    }
  }

  /** In an ascending list, a value above the one of rank `k` has more than `k` values below it. */
  lemma {:induction false} RankAboveBelow(s: seq<real>, k: nat, v: real)
    requires Ascending(s) && k < |s| && s[k] < v
    ensures CountBelow(s, v) > k
  {
    if k == 0 {
    } else {
      RankAboveBelow(s[1..], k - 1, v);
    }
  }
}
