/** Go's string order, and the two ways the collector sorts: `sort.Strings` on a
    slice, and the sorted key list of a map. */
module Strings {
  import opened Prelude


  /** Go's `<` on strings: lexicographic, a proper prefix first. */
  predicate Less(a: string, b: string) {
    if b == [] then false
    else if a == [] then true
    else a[0] < b[0] || (a[0] == b[0] && Less(a[1..], b[1..]))
  }

  lemma {:induction false} LessTotal(a: string, b: string)
    ensures Less(a, b) || a == b || Less(b, a)
    ensures !(Less(a, b) && (a == b || Less(b, a)))
  {
    if a != [] && b != [] {
      LessTotal(a[1..], b[1..]);
      assert a == [a[0]] + a[1..] && b == [b[0]] + b[1..];
    }
  }

  lemma {:induction false} LessTransitive(a: string, b: string, c: string)
    requires Less(a, b) && Less(b, c)
    ensures Less(a, c)
  {
    if a != [] && a[0] == b[0] == c[0] {
      LessTransitive(a[1..], b[1..], c[1..]);
    }
  }

  ghost predicate Ascending(s: seq<string>) {
    forall i, j :: 0 <= i < j < |s| ==> !Less(s[j], s[i])
  }

  ghost predicate StrictlyAscending(s: seq<string>) {
    forall i, j :: 0 <= i < j < |s| ==> Less(s[i], s[j])
  }

  lemma {:induction false} LeastExists(keys: set<string>)
    requires keys != {}
    ensures exists m :: m in keys && forall x :: x in keys ==> x == m || Less(m, x)
    decreases |keys|
  {
    var k :| k in keys;
    var rest := keys - {k};
    if rest != {} {
      LeastExists(rest);
      var r :| r in rest && forall x :: x in rest ==> x == r || Less(r, x);
      LessTotal(k, r);
      forall x | x in rest && Less(k, r) ensures Less(k, x) {
        if x != r { LessTransitive(k, r, x); }
      }
      assert keys == rest + {k};
      var m := if Less(k, r) then k else r;
      assert m in keys && forall x :: x in keys ==> x == m || Less(m, x);
    } else {
      assert keys == {k};
    }
  }

  ghost function Least(keys: set<string>): (m: string)
    requires keys != {}
    ensures m in keys && forall x :: x in keys ==> x == m || Less(m, x)
  {
    LeastExists(keys);
    var m :| m in keys && forall x :: x in keys ==> x == m || Less(m, x);
    m
  }

  /** The keys of a map in ascending order: what collecting them in any order
      and sorting must produce. */
  ghost function SortedKeys(keys: set<string>): (s: seq<string>)
    ensures StrictlyAscending(s)
    ensures forall x :: x in s <==> x in keys
    decreases |keys|
  {
    if keys == {} then []
    else
      var m := Least(keys);
      var rest := SortedKeys(keys - {m});
      assert forall j :: 0 <= j < |rest| ==> rest[j] in keys - {m};
      [m] + rest
  }

  lemma SortedKeysDistinct(keys: set<string>)
    ensures Distinct(SortedKeys(keys))
  {
    var s := SortedKeys(keys);
    forall i, j | 0 <= i < j < |s| ensures s[i] != s[j] { LessTotal(s[i], s[j]); }
  }

  /** A strictly ascending list is determined by its elements, so any sort of
      any iteration order of a map's keys is `SortedKeys`. */
  lemma {:induction false} SortIsUnique(a: seq<string>, keys: set<string>)
    requires StrictlyAscending(a)
    requires forall x :: x in a <==> x in keys
    ensures a == SortedKeys(keys)
    decreases |a|
  {
    if a == [] {
      assert keys == {};
    } else {
      assert a[0] in keys;
      var m := Least(keys);
      assert m in a;
      var i :| 0 <= i < |a| && a[i] == m;
      LessTotal(a[0], m);
      assert i == 0;
      var rest := a[1..];
      forall x ensures x in rest <==> x in keys - {m} {
        if x in rest {
          var j :| 0 <= j < |rest| && rest[j] == x;
          assert rest[j] == a[j + 1] && Less(a[0], a[j + 1]);
          LessTotal(m, x);
        }
        if x in keys - {m} {
          var j :| 0 <= j < |a| && a[j] == x;
          assert a[j] == rest[j - 1];
        }
      }
      SortIsUnique(rest, keys - {m});
    }
  }

  /** `sort.Strings`: the same elements with the same multiplicities, ascending. */
  method Sort(s: seq<string>) returns (r: seq<string>)
    ensures multiset(r) == multiset(s)
    ensures Ascending(r)
  {
    r := [];
    for i := 0 to |s|
      invariant multiset(r) == multiset(s[..i])
      invariant Ascending(r)
    {
      var k := |r|;
      while k > 0 && Less(s[i], r[k - 1])
        invariant 0 <= k <= |r|
        invariant forall j :: k <= j < |r| ==> Less(s[i], r[j])
      {
        k := k - 1;
      }
      assert s[..i + 1] == s[..i] + [s[i]];
      InsertAscending(r, k, s[i]);
      assert r == r[..k] + r[k..];
      r := r[..k] + [s[i]] + r[k..];
    }
    assert s[..|s|] == s;
  }

  lemma InsertAscending(r: seq<string>, k: nat, x: string)
    requires Ascending(r) && k <= |r|
    requires k > 0 ==> !Less(x, r[k - 1])
    requires forall j :: k <= j < |r| ==> Less(x, r[j])
    ensures Ascending(r[..k] + [x] + r[k..])
  {
    forall j | 0 <= j < k ensures !Less(x, r[j]) {
      if j < k - 1 && Less(x, r[j]) {
        LessTotal(r[j], r[k - 1]);
        if r[j] != r[k - 1] { LessTransitive(x, r[j], r[k - 1]); }
      }
    }
    forall j | k <= j < |r| ensures !Less(r[j], x) { LessTotal(x, r[j]); }
  }

  /** Sorting a slice of distinct strings gives the sorted key list. */
  method SortDistinct(s: seq<string>, ghost keys: set<string>) returns (r: seq<string>)
    requires Distinct(s)
    requires forall x :: x in s <==> x in keys
    ensures r == SortedKeys(keys)
  {
    r := Sort(s);
    forall i, j | 0 <= i < j < |r| ensures Less(r[i], r[j]) {
      LessTotal(r[i], r[j]);
      if r[i] == r[j] {
        DuplicateCount(r, i, j);
        DistinctCount(s, r[i]);
      }
    }
    forall x ensures x in r <==> x in keys {
      assert x in r <==> x in multiset(r);
      assert x in s <==> x in multiset(s);
    }
    SortIsUnique(r, keys);
  }

  /** A map's keys, ranged over in an arbitrary order and then sorted. */
  method KeysInOrder(keys: set<string>) returns (ids: seq<string>)
    ensures ids == SortedKeys(keys)
  {
    ids := [];
    var left := keys;
    while left != {}
      invariant left <= keys
      invariant forall x :: x in ids <==> x in keys - left
      invariant Distinct(ids)
      decreases |left|
    {
      var id :| id in left;
      assert id !in ids;
      ids := ids + [id];
      left := left - {id};
    }
    ids := SortDistinct(ids, keys);
  }

  lemma DuplicateCount(r: seq<string>, i: nat, j: nat)
    requires i < j < |r| && r[i] == r[j]
    ensures multiset(r)[r[i]] >= 2
  {
    assert r == r[..j] + [r[j]] + r[j + 1..];
    assert r[i] in r[..j];
    assert multiset(r) == multiset(r[..j]) + multiset([r[j]]) + multiset(r[j + 1..]);
  }

  lemma {:induction false} DistinctCount(s: seq<string>, x: string)
    requires Distinct(s)
    ensures multiset(s)[x] <= 1
  {
    if s != [] {
      var n := |s| - 1;
      DistinctCount(s[..n], x);
      assert s == s[..n] + [s[n]];
      assert multiset(s) == multiset(s[..n]) + multiset([s[n]]);
      if x == s[n] { assert x !in s[..n]; }
    }
  }
}
