/** `sorted` on a list of strings. */
module StringSort {
  import opened Orders
  import StableSort

  function StrOrder(): (string, string) -> bool { (a, b) => StrLe(a, b) }

  function SortStrings(s: seq<string>): seq<string> { StableSort.SortBy(StrOrder(), s) }

  lemma StrOrderIsTotal()
    ensures StableSort.TotalPreorder(StrOrder())
  {
    forall a, b ensures StrOrder()(a, b) || StrOrder()(b, a) { StrLeTotal(a, b); }
    forall a, b, c | StrOrder()(a, b) && StrOrder()(b, c) ensures StrOrder()(a, c) { StrLeTransitive(a, b, c); }
  }

  lemma SortStringsFacts(s: seq<string>)
    ensures Sorted(SortStrings(s)) && multiset(SortStrings(s)) == multiset(s)
    ensures |SortStrings(s)| == |s| && forall x :: x in SortStrings(s) <==> x in s
  {
    StrOrderIsTotal();
    StableSort.SortSorts(StrOrder(), s);
    StableSort.SortPermutes(StrOrder(), s);
    var r := SortStrings(s);
    forall i, j | 0 <= i < j < |r| ensures StrLe(r[i], r[j]) {
      assert StrOrder()(r[i], r[j]);
    }
  }

  /** A multiset of strings has one sorted listing. */
  lemma {:induction false} SortedIsUnique(s: seq<string>, t: seq<string>)
    requires Sorted(s) && Sorted(t) && multiset(s) == multiset(t)
    ensures s == t
  {
    assert |multiset(s)| == |s| && |multiset(t)| == |t|;
    if s != [] {
      HeadLeast(s, t);
      HeadLeast(t, s);
      StrLeAntisymmetric(s[0], t[0]);
      assert s == [s[0]] + s[1..] && t == [t[0]] + t[1..];
      assert multiset(s[1..]) == multiset(s) - multiset{s[0]};
      assert multiset(t[1..]) == multiset(t) - multiset{t[0]};
      SortedIsUnique(s[1..], t[1..]);
    }
  }

  lemma HeadLeast(s: seq<string>, t: seq<string>)
    requires Sorted(s) && s != [] && t != [] && multiset(s) == multiset(t)
    ensures StrLe(s[0], t[0])
  {
    assert t[0] in multiset(s);
    var k :| 0 <= k < |s| && s[k] == t[0];
    StrLeReflexive(s[0]);
  }

  /** Sorting forgets the order it is given, and changes sorted lists no more. */
  lemma SortIgnoresOrder(s: seq<string>, t: seq<string>)
    ensures SortStrings(s) == SortStrings(t) <==> multiset(s) == multiset(t)
    ensures Sorted(s) ==> SortStrings(s) == s
  {
    SortStringsFacts(s);
    SortStringsFacts(t);
    if multiset(s) == multiset(t) {
      SortedIsUnique(SortStrings(s), SortStrings(t));
    }
    if Sorted(s) {
      SortedIsUnique(s, SortStrings(s));
    }
  }
}
