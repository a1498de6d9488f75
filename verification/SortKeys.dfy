/** Sorting by tuple keys, and sorting twice. */
module SortKeys {
  import opened Orders
  import opened StableSort

  /** A key tuple: a number, then two strings, compared in that order. */
  datatype Key = Key(rank: int, first: string, second: string)

  predicate KeyLe(a: Key, b: Key)
  {
    if a.rank != b.rank then a.rank < b.rank
    else if a.first != b.first then StrLe(a.first, b.first)
    else StrLe(a.second, b.second)
  }

  lemma KeyLeTotal(a: Key, b: Key)
    ensures KeyLe(a, b) || KeyLe(b, a)
    ensures KeyLe(a, b) && KeyLe(b, a) <==> a == b
  {
    StrLeTotal(a.first, b.first);
    StrLeTotal(a.second, b.second);
    if KeyLe(a, b) && KeyLe(b, a) {
      if a.first != b.first { StrLeAntisymmetric(a.first, b.first); }
      StrLeAntisymmetric(a.second, b.second);
    }
    StrLeReflexive(a.second);
  }

  lemma KeyLeTransitive(a: Key, b: Key, c: Key)
    requires KeyLe(a, b) && KeyLe(b, c)
    ensures KeyLe(a, c)
  {
    if a.rank == b.rank == c.rank {
      if a.first == b.first {
        if b.first == c.first { StrLeTransitive(a.second, b.second, c.second); }
      } else if b.first != c.first {
        StrLeTransitive(a.first, b.first, c.first);
        if a.first == c.first { StrLeAntisymmetric(a.first, b.first); }
      }
    }
  }

  /** `sorted(..., key=key)` and `sorted(..., key=key, reverse=True)`. */
  function By<T>(key: T -> Key): (T, T) -> bool { (x: T, y: T) => KeyLe(key(x), key(y)) }

  function ByDescending<T>(key: T -> Key): (T, T) -> bool { (x: T, y: T) => KeyLe(key(y), key(x)) }

  lemma ByIsTotal<T(!new)>(key: T -> Key)
    ensures TotalPreorder(By(key)) && TotalPreorder(ByDescending(key))
  {
    forall a: T, b: T ensures By(key)(a, b) || By(key)(b, a) { KeyLeTotal(key(a), key(b)); }
    forall a: T, b: T, c: T | By(key)(a, b) && By(key)(b, c) ensures By(key)(a, c) {
      KeyLeTransitive(key(a), key(b), key(c));
    }
    forall a: T, b: T ensures ByDescending(key)(a, b) || ByDescending(key)(b, a) { KeyLeTotal(key(a), key(b)); }
    forall a: T, b: T, c: T | ByDescending(key)(a, b) && ByDescending(key)(b, c) ensures ByDescending(key)(a, c) {
      KeyLeTransitive(key(c), key(b), key(a));
    }
  }

  // ---------------------------------------------------------------- two passes

  /** First by `a`, then by `b` among the equals of `a`. */
  function Lexicographic<T>(a: (T, T) -> bool, b: (T, T) -> bool): (T, T) -> bool
  {
    (x: T, y: T) => a(x, y) && (a(y, x) ==> b(x, y))
  }

  lemma LexicographicIsTotal<T(!new)>(a: (T, T) -> bool, b: (T, T) -> bool)
    requires TotalPreorder(a) && TotalPreorder(b)
    ensures TotalPreorder(Lexicographic(a, b))
  {
    var le := Lexicographic(a, b);
    forall x: T, y: T ensures le(x, y) || le(y, x) {
      assert a(x, y) || a(y, x);
      assert b(x, y) || b(y, x);
    }
    forall x: T, y: T, z: T | le(x, y) && le(y, z) ensures le(x, z) {
      assert a(x, z);
      if a(z, x) {
        assert a(y, x) && a(z, y);
        assert b(x, y) && b(y, z);
      }
    }
  }

  lemma {:induction false} FilterFilter<T>(p: T -> bool, q: T -> bool, r: T -> bool, s: seq<T>)
    requires forall x :: r(x) <==> p(x) && q(x)
    ensures Filter(p, Filter(q, s)) == Filter(r, s)
  {
    if s != [] {
      FilterFilter(p, q, r, s[1..]);
      FilterConcat(p, if q(s[0]) then [s[0]] else [], Filter(q, s[1..]));
      SingletonFilter(p, s[0]);
    }
  }

  lemma {:induction false} FilterKeepsSorted<T>(le: (T, T) -> bool, p: T -> bool, s: seq<T>)
    requires SortedBy(le, s)
    ensures SortedBy(le, Filter(p, s))
  {
    if s != [] {
      FilterKeepsSorted(le, p, s[1..]);
      var rest := Filter(p, s[1..]);
      if p(s[0]) {
        forall j | 0 <= j < |rest| ensures le(s[0], rest[j]) {
          FilterMember(p, s[1..], rest[j]);
          var k :| 0 <= k < |s[1..]| && s[1..][k] == rest[j];
          assert le(s[0], s[k + 1]);
        }
        var r := [s[0]] + rest;
        assert forall i, j :: 0 <= i < j < |r| ==> le(r[i], r[j]);
      }
    }
  }

  /** Elements that pass the filter keep the order the filtered list has. */
  lemma {:induction false} FilteredOrder<T>(le: (T, T) -> bool, p: T -> bool, s: seq<T>, i: nat, j: nat)
    requires i < j < |s| && p(s[i]) && p(s[j]) && SortedBy(le, Filter(p, s))
    ensures le(s[i], s[j])
  {
    var head, rest := if p(s[0]) then [s[0]] else [], Filter(p, s[1..]);
    assert Filter(p, s) == head + rest;
    if i > 0 {
      assert forall k, m :: 0 <= k < m < |rest| ==> rest[k] == Filter(p, s)[|head| + k] && rest[m] == Filter(p, s)[|head| + m];
      FilteredOrder(le, p, s[1..], i - 1, j - 1);
    } else {
      assert s[j] == s[1..][j - 1];
      FilterMember(p, s[1..], s[j]);
      var m :| 0 <= m < |rest| && rest[m] == s[j];
      assert Filter(p, s)[0] == s[0] && Filter(p, s)[m + 1] == s[j];
    }
  }

  lemma LexicographicClass<T(!new)>(a: (T, T) -> bool, b: (T, T) -> bool, x: T, s: seq<T>)
    ensures Filter(Class(b, x), Filter(Class(a, x), s)) == Filter(Class(Lexicographic(a, b), x), s)
    ensures Filter(Class(a, x), Filter(Class(b, x), s)) == Filter(Class(Lexicographic(a, b), x), s)
  {
    FilterFilter(Class(b, x), Class(a, x), Class(Lexicographic(a, b), x), s);
    FilterFilter(Class(a, x), Class(b, x), Class(Lexicographic(a, b), x), s);
  }

  lemma TwoPassSorted<T(!new)>(a: (T, T) -> bool, b: (T, T) -> bool, s: seq<T>)
    requires TotalPreorder(a) && TotalPreorder(b)
    ensures SortedBy(Lexicographic(a, b), SortBy(a, SortBy(b, s)))
  {
    var once := SortBy(b, s);
    var twice := SortBy(a, once);
    SortSorts(b, s);
    SortSorts(a, once);
    SortIsStable(a, once);
    forall i, j | 0 <= i < j < |twice| ensures Lexicographic(a, b)(twice[i], twice[j]) {
      assert a(twice[i], twice[j]);
      if a(twice[j], twice[i]) {
        var p := Class(a, twice[i]);
        assert a(twice[i], twice[i]);
        FilterKeepsSorted(b, p, once);
        assert Filter(p, twice) == Filter(p, once);
        FilteredOrder(b, p, twice, i, j);
      }
    }
  }

  /** Sorting by the minor key and then stably by the major key is one sort by both. */
  lemma TwoPassSort<T(!new)>(a: (T, T) -> bool, b: (T, T) -> bool, s: seq<T>)
    requires TotalPreorder(a) && TotalPreorder(b)
    ensures SortBy(a, SortBy(b, s)) == SortBy(Lexicographic(a, b), s)
  {
    var le := Lexicographic(a, b);
    var once := SortBy(b, s);
    var twice, direct := SortBy(a, once), SortBy(le, s);
    LexicographicIsTotal(a, b);
    TwoPassSorted(a, b, s);
    SortSorts(le, s);
    SortIsStable(le, s);
    SortIsStable(b, s);
    SortIsStable(a, once);
    forall x ensures Filter(Class(le, x), twice) == Filter(Class(le, x), direct) {
      LexicographicClass(a, b, x, twice);
      LexicographicClass(a, b, x, once);
      LexicographicClass(a, b, x, s);
      assert Filter(Class(a, x), once) == Filter(Class(a, x), twice);
      assert Filter(Class(b, x), s) == Filter(Class(b, x), once);
      assert Filter(Class(le, x), s) == Filter(Class(le, x), direct);
    }
    StableSortIsUnique(le, twice, direct);
  }
}
