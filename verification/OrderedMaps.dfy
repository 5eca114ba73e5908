/** The iteration order of the source's ordered maps: strictly ascending keys. */
module OrderedMaps {
  import opened Bytes

  ghost predicate Ascending(ids: seq<Id>) {
    forall i, j :: 0 <= i < j < |ids| ==> Less(ids[i], ids[j])
  }

  predicate Distinct<T(==)>(ids: seq<T>) {
    forall i, j :: 0 <= i < j < |ids| ==> ids[i] != ids[j]
  }

  function Elements<T>(s: seq<T>): (r: set<T>) {
    set x | x in s
  }

  predicate IsLeast(m: Id, ids: set<Id>) {
    m in ids && forall x | x in ids :: x == m || Less(m, x)
  }

  lemma {:induction false} LeastExists(ids: set<Id>) returns (m: Id)
    requires ids != {}
    ensures IsLeast(m, ids)
  {
    var k :| k in ids;
    var rest := ids - {k};
    if rest == {} {
      assert forall x | x in ids :: x == k || x in rest;
      m := k;
    } else {
      var n := LeastExists(rest);
      LessTotal(k, n);
      m := if Less(k, n) then k else n;
      forall x | x in ids ensures x == m || Less(m, x) {
        assert x == k || x in rest;
        if m == k && x in rest && x != n { LessTransitive(k, n, x); }
      }
    }
  }

  lemma LeastIsUnique(ids: set<Id>, m: Id, n: Id)
    requires IsLeast(m, ids) && IsLeast(n, ids)
    ensures m == n
  {
    if m != n {
      LessTransitive(m, n, m);
      LessIrreflexive(m);
    }
  }

  function Least(ids: set<Id>): (m: Id)
    requires ids != {}
    ensures IsLeast(m, ids)
  {
    assert exists m :: m in ids && IsLeast(m, ids) by { var w := LeastExists(ids); }
    assert forall m, n | IsLeast(m, ids) && IsLeast(n, ids) :: m == n by {
      forall m, n | IsLeast(m, ids) && IsLeast(n, ids) ensures m == n { LeastIsUnique(ids, m, n); }
    }
    var m: Id :| m in ids && IsLeast(m, ids);
    m
  }

  /** The keys of an ordered map in iteration order. */
  function SortedKeys(keys: set<Id>): (s: seq<Id>)
    ensures Ascending(s) && Elements(s) == keys
    decreases |keys|
  {
    if keys == {} then
      []
    else
      var m := Least(keys);
      var rest := SortedKeys(keys - {m});
      PrependLeast(m, rest, keys);
      [m] + rest
  }

  lemma PrependLeast(m: Id, rest: seq<Id>, keys: set<Id>)
    requires IsLeast(m, keys) && Ascending(rest) && Elements(rest) == keys - {m}
    ensures Ascending([m] + rest) && Elements([m] + rest) == keys
  {
    var s := [m] + rest;
    forall i, j | 0 <= i < j < |s| ensures Less(s[i], s[j]) {
      assert s[j] == rest[j - 1];
      assert rest[j - 1] in Elements(rest);
    }
    forall x | x in keys ensures x in s {
      if x != m { assert x in Elements(rest); }
    }
    forall x | x in s ensures x in keys {
      if x != m { assert x in rest; assert x in Elements(rest); }
    }
  }

  lemma AscendingIsDistinct(s: seq<Id>)
    requires Ascending(s)
    ensures Distinct(s)
  {
    forall i, j | 0 <= i < j < |s| ensures s[i] != s[j] { LessIrreflexive(s[i]); }
  }

  /** A set of keys has one ascending enumeration. */
  lemma {:induction false} AscendingIsUnique(s: seq<Id>, t: seq<Id>)
    requires Ascending(s) && Ascending(t) && Elements(s) == Elements(t)
    ensures s == t
  {
    assert s != [] ==> s[0] in Elements(s);
    assert t != [] ==> t[0] in Elements(t);
    if s != [] && t != [] {
      assert IsLeast(s[0], Elements(s)) by { HeadIsLeast(s); }
      assert IsLeast(t[0], Elements(s)) by { HeadIsLeast(t); }
      LeastIsUnique(Elements(s), s[0], t[0]);
      AscendingIsDistinct(s);
      AscendingIsDistinct(t);
      assert Elements(s[1..]) == Elements(s) - {s[0]};
      assert Elements(t[1..]) == Elements(t) - {t[0]};
      AscendingIsUnique(s[1..], t[1..]);
    }
  }

  lemma HeadIsLeast(s: seq<Id>)
    requires s != [] && Ascending(s)
    ensures IsLeast(s[0], Elements(s))
  {
    forall x | x in Elements(s) && x != s[0] ensures Less(s[0], x) {
      var i :| 0 <= i < |s| && s[i] == x;
    }
  }

  lemma {:induction false} DistinctCount<T>(s: seq<T>)
    requires Distinct(s)
    ensures |Elements(s)| == |s|
  {
    if s != [] {
      DistinctCount(s[1..]);
      assert Elements(s) == {s[0]} + Elements(s[1..]);
    }
  }

  lemma SubsetIsSmaller<T>(a: set<T>, b: set<T>)
    requires a <= b
    ensures |a| <= |b|
  {
    assert b == a + (b - a);
  }

  lemma SubsetOfSameSize<T>(a: set<T>, b: set<T>)
    requires a <= b && |a| == |b|
    ensures a == b
  {
    assert b == a + (b - a);
    assert |b - a| == 0;
  }
}
