/** Exactly when the pre-image of the source fingerprint identifies a file tree. */
module BuildCollisions {
  import opened Collections
  import opened Orders
  import opened Utf8
  import opened BuildIdentity

  /** File names hold no NUL, as every file system guarantees. */
  predicate NulFreeNames(t: Tree) { forall p :: p in t ==> '\0' !in p }

  // ---------------------------------------------------------------- counting zero bytes

  predicate IsZero(b: Byte) { b == 0 }

  function Zeros(b: Bytes): nat { Count(b, IsZero) }

  lemma ZerosConcat(a: Bytes, b: Bytes)
    ensures Zeros(a + b) == Zeros(a) + Zeros(b)
  {
    CountConcat(a, b, IsZero);
  }

  lemma NoZeros(b: Bytes)
    ensures Zeros(b) == 0 <==> 0 !in b
  {
    CountExtremes(b, IsZero);
    if 0 in b {
      var i :| 0 <= i < |b| && b[i] == 0;
      assert IsZero(b[i]);
    }
  }

  lemma OneZero()
    ensures Zeros([0]) == 1
  {
    var z: Bytes := [0];
    assert z[1..] == [];
  }

  lemma RecordZeros(p: string, content: Bytes)
    requires '\0' !in p
    ensures Zeros(Record(p, content)) == 2 + Zeros(content)
  {
    NoZeroByte(p);
    NoZeros(Encode(p));
    OneZero();
    ZerosConcat(Encode(p), [0]);
    ZerosConcat(Encode(p) + [0], content);
    ZerosConcat(Encode(p) + [0] + content, [0]);
  }

  predicate CleanContents(ps: seq<string>, t: Tree) { forall p :: p in ps ==> 0 !in Content(t, p) }

  predicate CleanNames(ps: seq<string>) { forall p :: p in ps ==> '\0' !in p }

  lemma CleanCons(ps: seq<string>, t: Tree)
    requires ps != []
    ensures CleanContents(ps, t) <==> 0 !in Content(t, ps[0]) && CleanContents(ps[1..], t)
    ensures CleanNames(ps) <==> '\0' !in ps[0] && CleanNames(ps[1..])
  {
    assert ps == [ps[0]] + ps[1..];
    assert forall p :: p in ps <==> p == ps[0] || p in ps[1..];
  }

  /** Every record holds two zero bytes of its own, and exactly two when its content holds none. */
  lemma {:induction false} RecordsZeros(ps: seq<string>, t: Tree)
    requires CleanNames(ps)
    ensures Zeros(Records(ps, t)) >= 2 * |ps|
    ensures Zeros(Records(ps, t)) == 2 * |ps| <==> CleanContents(ps, t)
  {
    if ps != [] {
      CleanCons(ps, t);
      RecordsZeros(ps[1..], t);
      RecordZeros(ps[0], Content(t, ps[0]));
      NoZeros(Content(t, ps[0]));
      ZerosConcat(Record(ps[0], Content(t, ps[0])), Records(ps[1..], t));
    }
  }

  function Blob(t: Tree): Bytes { Records(SortedKeys(t.Keys), t) }

  lemma BlobZeros(t: Tree)
    requires NulFreeNames(t)
    ensures Zeros(Blob(t)) >= 2 * |t|
    ensures Zeros(Blob(t)) == 2 * |t| <==> NulFree(t)
  {
    var ks := SortedKeys(t.Keys);
    assert |ks| == |t.Keys| == |t|;
    assert CleanNames(ks);
    RecordsZeros(ks, t);
    KeysAreListed(t, ks);
  }

  lemma KeysAreListed(t: Tree, ks: seq<string>)
    requires NulFreeNames(t) && forall k :: k in ks <==> k in t
    ensures CleanContents(ks, t) <==> NulFree(t)
  {
    if NulFree(t) {
      forall p | p in ks ensures 0 !in Content(t, p) { assert p in t; }
    }
    if CleanContents(ks, t) {
      forall p | p in t ensures '\0' !in p && 0 !in t[p] { assert p in ks && Content(t, p) == t[p]; }
    }
  }

  /**
   * A tree without NUL bytes is identified among all trees with at least as many files, whatever
   * those hold; and among all trees without NUL bytes, whatever their number of files.
   */
  lemma PreImageIdentifies(t: Tree, u: Tree)
    requires NulFree(Sources(t)) && NulFreeNames(Sources(u))
    requires NulFree(Sources(u)) || |Sources(u)| >= |Sources(t)|
    ensures PreImage(t) == PreImage(u) <==> Sources(t) == Sources(u)
  {
    if PreImage(t) == PreImage(u) {
      BlobZeros(Sources(t));
      BlobZeros(Sources(u));
      assert Blob(Sources(t)) == Blob(Sources(u));
      PreImageInjective(t, u);
    }
  }

  // ---------------------------------------------------------------- which trees have a twin

  /** Another tree of files hashes the same bytes. */
  ghost predicate HasTwin(t: Tree)
  {
    exists u :: NulFreeNames(Sources(u)) && PreImage(u) == PreImage(t) && Sources(u) != Sources(t)
  }

  /** The content of `p` spells, between NULs, the record of a later file. */
  ghost predicate SpellsRecord(p: string, content: Bytes)
  {
    exists c: Bytes, q: string, d: Bytes ::
      IncludedSourceFile(q) && '\0' !in q && StrLe(p, q) && p != q && content == Spliced(c, q, d)
  }

  function Spliced(c: Bytes, q: string, d: Bytes): Bytes { c + [0] + Encode(q) + [0] + d }

  lemma SourcesOfSources(t: Tree)
    requires forall p :: p in t ==> IncludedSourceFile(p)
    ensures Sources(t) == t
  {
  }

  lemma FirstTwo(ks: seq<string>)
    requires |ks| >= 2
    ensures ks == [] + [ks[0], ks[1]] + ks[2..]
  {
  }

  /** Two files or more: merging the first two gives a twin. */
  lemma ManyFilesHaveTwin(t: Tree)
    requires NulFreeNames(Sources(t)) && |Sources(t)| >= 2
    ensures HasTwin(t)
  {
    var ks := SortedKeys(Sources(t).Keys);
    assert |ks| == |Sources(t).Keys|;
    FirstTwo(ks);
    var p, q := ks[0], ks[1];
    assert p in ks && q in ks;
    MergedFilesCollide(t, [], p, q, ks[2..]);
    MergedNames(t, p, q);
    assert HasTwin(t) by {
      var u := Merged(t, p, q);
      assert NulFreeNames(Sources(u)) && PreImage(u) == PreImage(t) && Sources(u) != Sources(t);
    }
  }

  lemma MergedNames(t: Tree, p: string, q: string)
    requires p in Sources(t) && NulFreeNames(Sources(t))
    ensures NulFreeNames(Sources(Merged(t, p, q)))
  {
    forall k | k in Sources(Merged(t, p, q)) ensures '\0' !in k {
      assert k in Sources(t);
    }
  }

  lemma SingleKey(p: string, t: Tree)
    requires t.Keys == {p}
    ensures SortedKeys(t.Keys) == [p] && Blob(t) == Record(p, Content(t, p))
  {
    SortedKeysUnique([p], t.Keys);
    SingleRecord(p, t);
  }

  lemma TwoKeys(p: string, q: string, t: Tree)
    requires t.Keys == {p, q} && p != q && StrLe(p, q)
    ensures SortedKeys(t.Keys) == [p, q]
  {
    SortedKeysUnique([p, q], t.Keys);
  }

  /** One file whose content spells a later record: splitting it there gives a twin. */
  lemma SpellingHasTwin(t: Tree, p: string)
    requires NulFreeNames(Sources(t)) && Sources(t).Keys == {p} && SpellsRecord(p, Sources(t)[p])
    ensures HasTwin(t)
  {
    var s := Sources(t);
    var c: Bytes, q: string, d: Bytes :|
      IncludedSourceFile(q) && '\0' !in q && StrLe(p, q) && p != q && s[p] == Spliced(c, q, d);
    assert p in s && IncludedSourceFile(p);
    var u := map[p := c, q := d];
    SourcesOfSources(u);
    SingleKey(p, s);
    TwoKeys(p, q, u);
    SingleRecord(p, s);
    TwoRecords(p, q, u, s);
    assert PreImage(u) == PreImage(t);
    assert q in Sources(u) && q !in s;
    assert NulFreeNames(Sources(u));
  }

  lemma {:induction false} EndsInZero(ps: seq<string>, t: Tree)
    requires ps != []
    ensures var r := Records(ps, t); |r| > 0 && r[|r| - 1] == 0
  {
    if |ps| > 1 { EndsInZero(ps[1..], t); }
  }

  /** What a list of records that equals one record looks like: that record, or a split of its content. */
  lemma SplitOfOne(p: string, x: Bytes, qs: seq<string>, u: Tree)
    requires '\0' !in p && CleanNames(qs) && Records(qs, u) == Record(p, x)
    ensures qs != [] && qs[0] == p
    ensures |qs| == 1 ==> Content(u, p) == x
    ensures |qs| > 1 ==> exists d: Bytes :: x == Spliced(Content(u, p), qs[1], d)
  {
    assert qs != [];
    assert qs[0] in qs;
    var c, rest := Content(u, qs[0]), Records(qs[1..], u);
    NoZeroByte(p);
    NoZeroByte(qs[0]);
    RecordThen(qs[0], c, rest);
    RecordThen(p, x, []);
    assert Record(p, x) + [] == Record(p, x);
    SplitAtNul(Encode(p), x + [0] + [], Encode(qs[0]), c + [0] + rest);
    EncodeInjective(p, qs[0]);
    assert x + [0] + [] == x + [0];
    if |qs| == 1 {
      assert rest == [] && c + [0] + rest == c + [0];
      DropLast(x, c);
    } else {
      EndsInZero(qs[1..], u);
      var q, d, more := qs[1], Content(u, qs[1]), Records(qs[1..][1..], u);
      assert rest == Record(q, d) + more;
      RecordThen(q, d, more);
      var tail := d + [0] + more;
      TailEndsInZero(Encode(q), tail, rest);
      var e := tail[..|tail| - 1];
      assert tail == e + [0];
      Respell(c, Encode(q), e);
      DropLast(x, Spliced(c, q, e));
    }
  }

  lemma RecordThen(p: string, c: Bytes, rest: Bytes)
    ensures Record(p, c) + rest == Encode(p) + [0] + (c + [0] + rest)
  {
  }

  lemma DropLast(x: Bytes, y: Bytes)
    requires x + [0] == y + [0]
    ensures x == y
  {
    assert (x + [0])[..|x|] == x && (y + [0])[..|y|] == y;
  }

  lemma TailEndsInZero(name: Bytes, tail: Bytes, whole: Bytes)
    requires whole == name + [0] + tail && |tail| > 0 && |whole| > 0 && whole[|whole| - 1] == 0
    ensures tail[|tail| - 1] == 0
  {
    assert whole[|whole| - 1] == tail[|tail| - 1];
  }

  lemma Respell(c: Bytes, name: Bytes, e: Bytes)
    ensures c + [0] + (name + [0] + (e + [0])) == (c + [0] + name + [0] + e) + [0]
  {
  }

  /** A tree of one file has no twin unless its content spells a later record. */
  lemma OneFileTwin(t: Tree, u: Tree, p: string)
    requires NulFreeNames(Sources(t)) && Sources(t).Keys == {p} && NulFreeNames(Sources(u)) && PreImage(u) == PreImage(t)
    ensures Sources(u) == Sources(t) || SpellsRecord(p, Sources(t)[p])
  {
    var s, v := Sources(t), Sources(u);
    var qs := SortedKeys(v.Keys);
    SingleKey(p, s);
    assert p in s && CleanNames(qs);
    SplitOfOne(p, s[p], qs, v);
    if |qs| == 1 {
      SameSingle(s, v, p, qs);
    } else {
      var q := qs[1];
      assert q in qs && q in v && StrLe(qs[0], qs[1]) && qs[0] != qs[1];
      var d: Bytes :| s[p] == Spliced(Content(v, p), q, d);
      assert SpellsRecord(p, s[p]);
    }
  }

  lemma SameSingle(s: Tree, v: Tree, p: string, qs: seq<string>)
    requires s.Keys == {p} && qs == [p] && (forall k :: k in qs <==> k in v.Keys) && Content(v, p) == s[p]
    ensures v == s
  {
    assert p in qs && p in v;
    assert v.Keys == {p};
  }

  lemma EmptyHasNoTwin(t: Tree, u: Tree)
    requires |Sources(t)| == 0 && PreImage(u) == PreImage(t)
    ensures Sources(u) == Sources(t)
  {
    var qs := SortedKeys(Sources(u).Keys);
    assert Sources(t) == map[];
    if qs != [] { EndsInZero(qs, Sources(u)); }
    assert qs == [];
    assert Sources(u).Keys == {};
  }

  lemma OnlyKey(t: Tree) returns (p: string)
    requires |t| == 1
    ensures t.Keys == {p}
  {
    var ks := SortedKeys(t.Keys);
    assert |ks| == |t.Keys| == 1;
    p := ks[0];
    assert forall k :: k in t.Keys <==> k in ks;
  }

  /**
   * The pre-image fails to identify a tree exactly when the tree has two files or more, or one whose
   * content spells, between NULs, the path and record of a later source file.
   */
  lemma TwinIff(t: Tree)
    requires NulFreeNames(Sources(t))
    ensures HasTwin(t) <==> |Sources(t)| >= 2 || exists p :: p in Sources(t) && SpellsRecord(p, Sources(t)[p])
  {
    var s := Sources(t);
    if |s| >= 2 {
      ManyFilesHaveTwin(t);
    } else if |s| == 1 {
      var p := OnlyKey(s);
      assert forall k :: k in s <==> k == p;
      if SpellsRecord(p, s[p]) {
        SpellingHasTwin(t, p);
      } else if HasTwin(t) {
        var u :| NulFreeNames(Sources(u)) && PreImage(u) == PreImage(t) && Sources(u) != s;
        OneFileTwin(t, u, p);
      }
    } else if HasTwin(t) {
      var u :| NulFreeNames(Sources(u)) && PreImage(u) == PreImage(t) && Sources(u) != s;
      EmptyHasNoTwin(t, u);
    }
  }
}
