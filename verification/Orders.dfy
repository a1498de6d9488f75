/** Python's ordering of strings, by code point, and the sorted enumeration of a set of strings. */
module Orders {

  predicate StrLe(a: string, b: string)
  {
    if a == [] then true
    else if b == [] then false
    else a[0] < b[0] || (a[0] == b[0] && StrLe(a[1..], b[1..]))
  }

  lemma StrLeReflexive(a: string)
    ensures StrLe(a, a)
  {
  }

  lemma {:induction false} StrLeAntisymmetric(a: string, b: string)
    requires StrLe(a, b) && StrLe(b, a)
    ensures a == b
  {
    if a != [] && b != [] {
      StrLeAntisymmetric(a[1..], b[1..]);
      assert a == [a[0]] + a[1..] && b == [b[0]] + b[1..];
    }
  }

  lemma StrLeTransitive(a: string, b: string, c: string)
    requires StrLe(a, b) && StrLe(b, c)
    ensures StrLe(a, c)
  {
  }

  lemma StrLeTotal(a: string, b: string)
    ensures StrLe(a, b) || StrLe(b, a)
  {
  }

  predicate IsLeast(k: string, ks: set<string>)
  {
    k in ks && forall o :: o in ks ==> StrLe(k, o)
  }

  lemma {:induction false} LeastExists(ks: set<string>)
    requires ks != {}
    ensures exists k :: IsLeast(k, ks)
    decreases |ks|
  {
    var x :| x in ks;
    StrLeReflexive(x);
    if ks == {x} {
      assert IsLeast(x, ks);
    } else {
      var rest := ks - {x};
      assert ks == {x} + rest;
      LeastExists(rest);
      var m :| IsLeast(m, rest);
      StrLeTotal(x, m);
      if StrLe(m, x) {
        assert IsLeast(m, ks);
      } else {
        forall o | o in ks ensures StrLe(x, o) {
          if o != x { StrLeTransitive(x, m, o); }
        }
        assert IsLeast(x, ks);
      }
    }
  }

  lemma LeastIsUnique(ks: set<string>, j: string, k: string)
    requires IsLeast(j, ks) && IsLeast(k, ks)
    ensures j == k
  {
    StrLeAntisymmetric(j, k);
  }

  function Least(ks: set<string>): (k: string)
    requires ks != {}
    ensures IsLeast(k, ks)
  {
    LeastExists(ks);
    assert forall j, k | IsLeast(j, ks) && IsLeast(k, ks) :: j == k by {
      forall j, k | IsLeast(j, ks) && IsLeast(k, ks) ensures j == k { LeastIsUnique(ks, j, k); }
    }
    var k :| IsLeast(k, ks);
    k
  }

  predicate Sorted(s: seq<string>)
  {
    forall i, j :: 0 <= i < j < |s| ==> StrLe(s[i], s[j])
  }

  predicate Distinct<T(==)>(s: seq<T>)
  {
    forall i, j :: 0 <= i < j < |s| ==> s[i] != s[j]
  }

  /** `sorted(ks)` for a set of strings. */
  function SortedKeys(ks: set<string>): (r: seq<string>)
    ensures Sorted(r) && Distinct(r)
    ensures forall k :: k in r <==> k in ks
    ensures |r| == |ks|
    decreases |ks|
  {
    if ks == {} then []
    else
      var k := Least(ks);
      var rest := SortedKeys(ks - {k});
      assert forall i :: 0 <= i < |rest| ==> rest[i] in ks - {k};
      [k] + rest
  }

  /** A sorted list without repetition is the sorted enumeration of its elements. */
  lemma {:induction false} SortedKeysUnique(s: seq<string>, ks: set<string>)
    requires Sorted(s) && Distinct(s) && forall k :: k in s <==> k in ks
    ensures s == SortedKeys(ks)
  {
    if s == [] {
      assert ks == {};
    } else {
      var k, rest := s[0], s[1..];
      assert k in s;
      StrLeReflexive(k);
      assert IsLeast(k, ks);
      LeastIsUnique(ks, k, Least(ks));
      forall x ensures x in rest <==> x in ks - {k} {
        assert s == [k] + rest;
        if x in rest { assert x in s; }
      }
      SortedKeysUnique(rest, ks - {k});
      assert s == [k] + rest;
    }
  }

  lemma DistinctCons<T>(s: seq<T>)
    requires s != []
    ensures Distinct(s) <==> s[0] !in s[1..] && Distinct(s[1..])
  {
    assert forall j :: 0 < j < |s| ==> s[j] == s[1..][j - 1] && s[j] in s[1..];
  }

  function Elements(s: seq<string>): set<string> { set x | x in s }

  lemma {:induction false} SetSize(s: seq<string>)
    ensures |Elements(s)| <= |s|
    ensures |Elements(s)| == |s| <==> Distinct(s)
  {
    if s != [] {
      var rest := s[1..];
      SetSize(rest);
      DistinctCons(s);
      assert s == [s[0]] + rest;
      assert Elements(s) == Elements(rest) + {s[0]};
    }
  }

  lemma {:induction false} DistinctCounts<T>(s: seq<T>)
    requires Distinct(s)
    ensures forall x :: multiset(s)[x] <= 1
  {
    if s != [] {
      DistinctCounts(s[1..]);
      assert s == [s[0]] + s[1..];
      assert s[0] !in s[1..];
    }
  }

  /** Rearranging a list without repetition introduces none. */
  lemma DistinctPermutes<T>(s: seq<T>, t: seq<T>)
    requires Distinct(s) && multiset(s) == multiset(t)
    ensures Distinct(t)
  {
    DistinctCounts(s);
    forall i, j | 0 <= i < j < |t|
      ensures t[i] != t[j]
    {
      assert t == t[..j] + [t[j]] + t[j + 1..];
      assert t[i] == t[..j][i];
      assert multiset(t[..j])[t[i]] >= 1;
      assert multiset(t)[t[j]] == multiset(t[..j])[t[j]] + 1 + multiset(t[j + 1..])[t[j]];
      assert multiset(s)[t[j]] <= 1;
    }
  }
}
