/**
 * Python's `sorted`: a stable sort by a total preorder. `reverse=True` is the same sort by the
 * reversed preorder, since Python keeps equal elements in their original order in both cases.
 */
module StableSort {

  ghost predicate TotalPreorder<T(!new)>(le: (T, T) -> bool)
  {
    && (forall a, b :: le(a, b) || le(b, a))
    && (forall a, b, c :: le(a, b) && le(b, c) ==> le(a, c))
  }

  function InsertBy<T>(le: (T, T) -> bool, x: T, s: seq<T>): seq<T>
  {
    if s == [] || le(x, s[0]) then [x] + s else [s[0]] + InsertBy(le, x, s[1..])
  }

  function SortBy<T>(le: (T, T) -> bool, s: seq<T>): seq<T>
  {
    if s == [] then [] else InsertBy(le, s[0], SortBy(le, s[1..]))
  }

  predicate SortedBy<T>(le: (T, T) -> bool, s: seq<T>)
  {
    forall i, j :: 0 <= i < j < |s| ==> le(s[i], s[j])
  }

  function Filter<T>(p: T -> bool, s: seq<T>): (r: seq<T>)
    ensures |r| <= |s|
  {
    if s == [] then [] else (if p(s[0]) then [s[0]] else []) + Filter(p, s[1..])
  }

  /** The elements that compare equal to `x`. */
  function Class<T>(le: (T, T) -> bool, x: T): T -> bool
  {
    y => le(x, y) && le(y, x)
  }

  /** `t` lists the elements of `s` without disturbing the order inside any class of equals. */
  ghost predicate StableRearrangement<T(!new)>(le: (T, T) -> bool, s: seq<T>, t: seq<T>)
  {
    forall x :: Filter(Class(le, x), s) == Filter(Class(le, x), t)
  }

  // ---------------------------------------------------------------- permutation

  lemma {:induction false} InsertPermutes<T>(le: (T, T) -> bool, x: T, s: seq<T>)
    ensures multiset(InsertBy(le, x, s)) == multiset{x} + multiset(s)
  {
    if s != [] && !le(x, s[0]) {
      InsertPermutes(le, x, s[1..]);
      assert s == [s[0]] + s[1..];
    }
  }

  lemma {:induction false} SortPermutes<T>(le: (T, T) -> bool, s: seq<T>)
    ensures multiset(SortBy(le, s)) == multiset(s)
    ensures |SortBy(le, s)| == |s|
    ensures forall x :: x in SortBy(le, s) <==> x in s
  {
    if s != [] {
      SortPermutes(le, s[1..]);
      InsertPermutes(le, s[0], SortBy(le, s[1..]));
      assert s == [s[0]] + s[1..];
    }
    assert |multiset(SortBy(le, s))| == |multiset(s)|;
    forall x ensures x in SortBy(le, s) <==> x in s {
      assert x in multiset(SortBy(le, s)) <==> x in multiset(s);
    }
  }

  // ---------------------------------------------------------------- order

  lemma {:induction false} InsertKeepsSorted<T(!new)>(le: (T, T) -> bool, x: T, s: seq<T>)
    requires TotalPreorder(le) && SortedBy(le, s)
    ensures SortedBy(le, InsertBy(le, x, s))
  {
    if s == [] || le(x, s[0]) {
      var r := [x] + s;
      forall i, j | 0 <= i < j < |r| ensures le(r[i], r[j]) {
        if i == 0 && j > 1 { assert le(s[0], s[j - 1]); }
        if i > 0 { assert le(s[i - 1], s[j - 1]); }
      }
    } else {
      InsertKeepsSorted(le, x, s[1..]);
      InsertPermutes(le, x, s[1..]);
      var t := InsertBy(le, x, s[1..]);
      var r := [s[0]] + t;
      forall i, j | 0 <= i < j < |r| ensures le(r[i], r[j]) {
        if i == 0 {
          assert t[j - 1] in multiset(t);
          if t[j - 1] != x {
            assert t[j - 1] in multiset(s[1..]);
            var k :| 0 <= k < |s[1..]| && s[1..][k] == t[j - 1];
            assert le(s[0], s[k + 1]);
          }
        } else {
          assert le(t[i - 1], t[j - 1]);
        }
      }
    }
  }

  lemma {:induction false} SortSorts<T(!new)>(le: (T, T) -> bool, s: seq<T>)
    requires TotalPreorder(le)
    ensures SortedBy(le, SortBy(le, s))
  {
    if s != [] {
      SortSorts(le, s[1..]);
      InsertKeepsSorted(le, s[0], SortBy(le, s[1..]));
    }
  }

  // ---------------------------------------------------------------- stability

  lemma {:induction false} FilterConcat<T>(p: T -> bool, a: seq<T>, b: seq<T>)
    ensures Filter(p, a + b) == Filter(p, a) + Filter(p, b)
  {
    if a == [] {
      assert a + b == b;
    } else {
      assert (a + b)[1..] == a[1..] + b;
      FilterConcat(p, a[1..], b);
      var head := if p(a[0]) then [a[0]] else [];
      assert Filter(p, a + b) == head + (Filter(p, a[1..]) + Filter(p, b));
      assert head + (Filter(p, a[1..]) + Filter(p, b)) == head + Filter(p, a[1..]) + Filter(p, b);
    }
  }

  lemma FilterSnoc<T>(p: T -> bool, s: seq<T>, i: nat)
    requires i < |s|
    ensures Filter(p, s[..i + 1]) == Filter(p, s[..i]) + (if p(s[i]) then [s[i]] else [])
  {
    FilterConcat(p, s[..i], [s[i]]);
    SingletonFilter(p, s[i]);
    assert s[..i + 1] == s[..i] + [s[i]];
  }

  /** Insertion puts `x` in front of its equals. */
  lemma {:induction false} InsertIsStable<T(!new)>(le: (T, T) -> bool, x: T, s: seq<T>, y: T)
    requires TotalPreorder(le)
    ensures Filter(Class(le, y), InsertBy(le, x, s)) == Filter(Class(le, y), [x] + s)
  {
    var p := Class(le, y);
    if s != [] && !le(x, s[0]) {
      InsertIsStable(le, x, s[1..], y);
      FilterConcat(p, [s[0]], InsertBy(le, x, s[1..]));
      FilterConcat(p, [x], s);
      FilterConcat(p, [s[0]], s[1..]);
      FilterConcat(p, [x], s[1..]);
      assert s == [s[0]] + s[1..];
      SingletonFilter(p, x);
      SingletonFilter(p, s[0]);
    }
  }

  lemma SingletonFilter<T>(p: T -> bool, x: T)
    ensures Filter(p, [x]) == if p(x) then [x] else []
  {
    assert [x][1..] == [];
  }

  lemma {:induction false} SortIsStable<T(!new)>(le: (T, T) -> bool, s: seq<T>)
    requires TotalPreorder(le)
    ensures StableRearrangement(le, s, SortBy(le, s))
  {
    if s != [] {
      SortIsStable(le, s[1..]);
      forall y ensures Filter(Class(le, y), s) == Filter(Class(le, y), SortBy(le, s)) {
        InsertIsStable(le, s[0], SortBy(le, s[1..]), y);
        var p := Class(le, y);
        FilterConcat(p, [s[0]], s[1..]);
        FilterConcat(p, [s[0]], SortBy(le, s[1..]));
        assert s == [s[0]] + s[1..];
      }
    }
  }

  // ---------------------------------------------------------------- uniqueness

  lemma {:induction false} FilterMember<T>(p: T -> bool, s: seq<T>, x: T)
    ensures x in Filter(p, s) <==> x in s && p(x)
  {
    if s != [] {
      FilterMember(p, s[1..], x);
      assert s == [s[0]] + s[1..];
    }
  }

  /** Sorted and stable determines the result: there is only one stable sort. */
  lemma {:induction false} StableSortIsUnique<T(!new)>(le: (T, T) -> bool, s: seq<T>, t: seq<T>)
    requires TotalPreorder(le) && SortedBy(le, s) && SortedBy(le, t) && StableRearrangement(le, s, t)
    ensures s == t
    decreases |s|
  {
    if s == [] || t == [] {
      if s != [] { EmptyHasNoHead(le, t, s); }
      if t != [] { EmptyHasNoHead(le, s, t); }
    } else {
      SameHead(le, s, t);
      var s', t' := s[1..], t[1..];
      assert s == [s[0]] + s' && t == [t[0]] + t';
      forall y ensures Filter(Class(le, y), s') == Filter(Class(le, y), t') {
        var p := Class(le, y);
        FilterConcat(p, [s[0]], s');
        FilterConcat(p, [t[0]], t');
        assert Filter(p, s) == Filter(p, t);
        assert Filter(p, s)[|Filter(p, [s[0]])|..] == Filter(p, s');
        assert Filter(p, t)[|Filter(p, [t[0]])|..] == Filter(p, t');
      }
      StableSortIsUnique(le, s', t');
    }
  }

  lemma EmptyHasNoHead<T(!new)>(le: (T, T) -> bool, s: seq<T>, t: seq<T>)
    requires TotalPreorder(le) && s == [] && t != []
    ensures !StableRearrangement(le, s, t) && !StableRearrangement(le, t, s)
  {
    var p := Class(le, t[0]);
    FilterMember(p, t, t[0]);
    assert Filter(p, s) == [];
    assert t[0] in Filter(p, t);
  }

  lemma SameHead<T(!new)>(le: (T, T) -> bool, s: seq<T>, t: seq<T>)
    requires TotalPreorder(le) && SortedBy(le, s) && SortedBy(le, t) && StableRearrangement(le, s, t)
    requires s != [] && t != []
    ensures s[0] == t[0]
  {
    HeadIsLeast(le, s, t);
    HeadIsLeast(le, t, s);
    var p := Class(le, s[0]);
    assert p(s[0]) && p(t[0]);
    assert Filter(p, s)[0] == s[0] && Filter(p, t)[0] == t[0];
  }

  lemma HeadIsLeast<T(!new)>(le: (T, T) -> bool, s: seq<T>, t: seq<T>)
    requires TotalPreorder(le) && SortedBy(le, s) && s != [] && t != []
    requires StableRearrangement(le, s, t) || StableRearrangement(le, t, s)
    ensures le(s[0], t[0])
  {
    var p := Class(le, t[0]);
    FilterMember(p, t, t[0]);
    FilterMember(p, s, t[0]);
    assert Filter(p, s) == Filter(p, t);
    var k :| 0 <= k < |s| && s[k] == t[0];
    if k > 0 { assert le(s[0], s[k]); }
  }
}
