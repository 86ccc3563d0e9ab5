/** Vertex de-duplication as both mesh builders do it (holy-mm keyed by the
    (position index, texture index) pair of a face corner, holy-spinning-models
    keyed by the vertex value): every distinct key becomes one vertex, numbered
    in order of first occurrence, and each corner refers to its key's vertex.
    This module gives the declarative description of that result; the
    map-based loops in the parsers are proved to compute it. */
module Dedup {

  /** The distinct keys of `s`, in order of first occurrence. */
  function Distinct<K(==)>(s: seq<K>): (r: seq<K>)
    ensures forall i :: 0 <= i < |r| ==> r[i] in s
    ensures forall i :: 0 <= i < |s| ==> s[i] in r
    ensures forall i, j :: 0 <= i < j < |r| ==> r[i] != r[j]
    ensures |r| <= |s|
  {
    if s == [] then []
    else
      var d := Distinct(s[..|s| - 1]);
      assert forall i :: 0 <= i < |s| - 1 ==> s[i] == s[..|s| - 1][i];
      if s[|s| - 1] in d then d else d + [s[|s| - 1]]
  }

  /** The position of the first `x` in `s`. */
  function IndexOf<K(==)>(s: seq<K>, x: K): (i: nat)
    requires x in s
    ensures i < |s| && s[i] == x
    ensures forall j :: 0 <= j < i ==> s[j] != x
  {
    if s[0] == x then 0 else 1 + IndexOf(s[1..], x)
  }

  /** The vertex number of every key: its place among the distinct keys. */
  function Numbering<K(==)>(s: seq<K>): (r: seq<nat>)
    ensures |r| == |s|
  {
    seq(|s|, k requires 0 <= k < |s| => IndexOf(Distinct(s), s[k]))
  }

  /** The per-key data of the distinct keys laid out one after another. */
  function Concat<K>(ks: seq<K>, f: K -> seq<real>): seq<real> {
    if ks == [] then [] else Concat(ks[..|ks| - 1], f) + f(ks[|ks| - 1])
  }

  lemma DistinctSnoc<K>(s: seq<K>, x: K)
    ensures Distinct(s + [x]) == if x in Distinct(s) then Distinct(s) else Distinct(s) + [x]
  {
    assert (s + [x])[..|s|] == s;
  }

  /** A first position does not move when the sequence is extended. */
  lemma IndexOfExtend<K>(d: seq<K>, e: seq<K>, x: K)
    requires x in d
    ensures IndexOf(d + e, x) == IndexOf(d, x)
  {
    var i := IndexOf(d + e, x);
    var j := IndexOf(d, x);
    assert (d + e)[j] == x;
    assert i <= j;
    assert d[i] == (d + e)[i];
  }

  /** Adding a key extends the numbering by the number of that key: the number
      it already had, or the next free number. This is the loop step. */
  lemma NumberingSnoc<K>(s: seq<K>, x: K)
    ensures x in Distinct(s) ==>
      Numbering(s + [x]) == Numbering(s) + [IndexOf(Distinct(s), x)]
    ensures x !in Distinct(s) ==>
      Numbering(s + [x]) == Numbering(s) + [|Distinct(s)|]
  {
    var n := Numbering(s + [x]);
    var m := Numbering(s);
    forall k | 0 <= k < |s|
      ensures n[k] == m[k]
    {
      NumberingKeeps(s, x, k);
    }
    assert n == m + [n[|s|]];
    NumberingLast(s, x);
  }

  lemma NumberingLast<K>(s: seq<K>, x: K)
    ensures x in Distinct(s) ==> Numbering(s + [x])[|s|] == IndexOf(Distinct(s), x)
    ensures x !in Distinct(s) ==> Numbering(s + [x])[|s|] == |Distinct(s)|
  {
    DistinctSnoc(s, x);
    var d := Distinct(s);
    assert Numbering(s + [x])[|s|] == IndexOf(Distinct(s + [x]), x);
    if x in d {
      assert d + [] == d;
    } else {
      assert (d + [x])[|d|] == x;
    }
  }

  lemma NumberingKeeps<K>(s: seq<K>, x: K, k: nat)
    requires k < |s|
    ensures Numbering(s + [x])[k] == Numbering(s)[k]
  {
    DistinctSnoc(s, x);
    var d := Distinct(s);
    var e := if x in d then [] else [x];
    assert Distinct(s + [x]) == d + e;
    assert (s + [x])[k] == s[k];
    IndexOfExtend(d, e, s[k]);
  }

  /** Every number is a vertex: it is below the number of distinct keys. */
  lemma NumberingBounded<K>(s: seq<K>)
    ensures forall k :: 0 <= k < |s| ==> Numbering(s)[k] < |Distinct(s)|
  {
    forall k | 0 <= k < |s|
      ensures Numbering(s)[k] < |Distinct(s)|
    {
      assert s[k] in Distinct(s);
    }
  }

  /** Two corners share a vertex exactly when their keys are equal. */
  lemma NumberingSharesIff<K>(s: seq<K>, i: nat, j: nat)
    requires i < |s| && j < |s|
    ensures Numbering(s)[i] == Numbering(s)[j] <==> s[i] == s[j]
  {
    assert s[i] in Distinct(s) && s[j] in Distinct(s);
  }

  /** Every vertex is used by some corner. */
  lemma NumberingOnto<K>(s: seq<K>, v: nat)
    requires v < |Distinct(s)|
    ensures exists k :: 0 <= k < |s| && Numbering(s)[k] == v
  {
    var x := Distinct(s)[v];
    assert x in s;
    var k :| 0 <= k < |s| && s[k] == x;
    assert IndexOf(Distinct(s), x) == v;
    assert Numbering(s)[k] == v;
  }

  /** A key seen for the first time gets the next number: the count of
      distinct keys before it, so numbers are handed out without gaps. */
  lemma NumberingFirstOccurrence<K>(s: seq<K>, k: nat)
    requires k < |s| && s[k] !in s[..k]
    ensures Numbering(s)[k] == |Distinct(s[..k])|
  {
    assert s[..k + 1] == s[..k] + [s[k]];
    NumberingSnoc(s[..k], s[k]);
    NumberingPrefix(s, k + 1);
    assert Numbering(s)[k] == Numbering(s[..k + 1])[k];
  }

  /** The numbering of a prefix is the prefix of the numbering. */
  lemma NumberingPrefix<K>(s: seq<K>, n: nat)
    requires n <= |s|
    ensures Numbering(s[..n]) == Numbering(s)[..n]
    decreases |s| - n
  {
    if n < |s| {
      NumberingPrefix(s, n + 1);
      assert s[..n + 1] == s[..n] + [s[n]];
      NumberingSnoc(s[..n], s[n]);
      assert Numbering(s[..n + 1])[..n] == Numbering(s[..n]);
    } else {
      assert s[..n] == s;
    }
  }

  /** Concat of data of one width `w` is `w` values per key. */
  lemma {:induction false} ConcatLength<K>(ks: seq<K>, f: K -> seq<real>, w: nat)
    requires forall k :: 0 <= k < |ks| ==> |f(ks[k])| == w
    ensures |Concat(ks, f)| == w * |ks|
    decreases |ks|
  {
    if ks != [] {
      var n := |ks| - 1;
      ConcatLength(ks[..n], f, w);
      assert w * |ks| == w * n + w;
    }
  }

  /** Key `j`'s data is the block of `w` values from `w * j`. */
  lemma {:induction false} ConcatBlock<K>(ks: seq<K>, f: K -> seq<real>, w: nat, j: nat)
    requires forall k :: 0 <= k < |ks| ==> |f(ks[k])| == w
    requires j < |ks|
    ensures 0 <= w * j && w * j + w <= |Concat(ks, f)|
    ensures Concat(ks, f)[w * j..w * j + w] == f(ks[j])
    decreases |ks|
  {
    var n := |ks| - 1;
    var front := ks[..n];
    ConcatLength(front, f, w);
    var a, b := Concat(front, f), f(ks[n]);
    assert Concat(ks, f) == a + b;
    MulLe(w, 0, j);
    if j < n {
      ConcatBlock(front, f, w, j);
      PrefixSlice(a, b, w * j, w * j + w);
    } else {
      assert w * j == |a|;
      assert (a + b)[|a|..|a| + |b|] == b;
    }
  }

  lemma PrefixSlice(a: seq<real>, b: seq<real>, lo: nat, hi: nat)
    requires lo <= hi <= |a|
    ensures (a + b)[lo..hi] == a[lo..hi]
  {}

  /** The block of the vertex numbered for element c holds f of it. */
  lemma NumberedBlock<K>(ks: seq<K>, f: K -> seq<real>, w: nat, c: nat)
    requires forall k :: 0 <= k < |Distinct(ks)| ==> |f(Distinct(ks)[k])| == w
    requires c < |ks|
    ensures 0 <= w * Numbering(ks)[c] && w * Numbering(ks)[c] + w <= |Concat(Distinct(ks), f)|
    ensures Concat(Distinct(ks), f)[w * Numbering(ks)[c]..w * Numbering(ks)[c] + w] == f(ks[c])
  {
    NumberingNames(ks, c);
    ConcatBlock(Distinct(ks), f, w, Numbering(ks)[c]);
  }

  /** The number of element c names c's value among the distinct values. */
  lemma NumberingNames<K>(ks: seq<K>, c: nat)
    requires c < |ks|
    ensures Numbering(ks)[c] < |Distinct(ks)| && Distinct(ks)[Numbering(ks)[c]] == ks[c]
  {
    assert ks[c] in Distinct(ks);
  }

  lemma MulLe(w: nat, a: nat, b: nat)
    requires a <= b
    ensures w * a <= w * b
  {}

  // ---------------------------------------------------------------------
  // The loop state of both builders

  /** The state of a de-duplicating loop after the keys `done`: the `w`
      floats of every distinct key in order of first use, the numbering of
      the keys, and a map giving every key seen so far its number. */
  ghost predicate Built<K(!new)>(done: seq<K>, f: K -> seq<real>, w: nat,
                               vertices: seq<real>, indices: seq<nat>, vertexMap: map<K, nat>) {
    && vertices == Concat(Distinct(done), f)
    && |vertices| == w * |Distinct(done)|
    && indices == Numbering(done)
    && (forall k :: k in vertexMap <==> k in Distinct(done))
    && (forall k :: k in vertexMap ==> vertexMap[k] == IndexOf(Distinct(done), k))
  }

  /** Nothing is built before the first key. */
  lemma BuiltEmpty<K(!new)>(f: K -> seq<real>, w: nat)
    ensures Built([], f, w, [], [], map[])
  {
    assert Numbering<K>([]) == [];
  }

  /** A key seen before: it reuses its number and adds no vertex. */
  lemma BuiltHit<K(!new)>(done: seq<K>, f: K -> seq<real>, w: nat,
                    vertices: seq<real>, indices: seq<nat>, vertexMap: map<K, nat>, key: K)
    requires Built(done, f, w, vertices, indices, vertexMap) && key in vertexMap
    ensures Built(done + [key], f, w, vertices, indices + [vertexMap[key]], vertexMap)
  {
    NumberingSnoc(done, key);
    DistinctSnoc(done, key);
  }

  /** A new key: its floats are appended and it is numbered next, which is
      the number of vertices so far. */
  lemma BuiltMiss<K(!new)>(done: seq<K>, f: K -> seq<real>, w: nat,
                     vertices: seq<real>, indices: seq<nat>, vertexMap: map<K, nat>, key: K, n: nat)
    requires Built(done, f, w, vertices, indices, vertexMap) && key !in vertexMap
    requires |f(key)| == w && n == |Distinct(done)|
    ensures Built(done + [key], f, w, vertices + f(key), indices + [n], vertexMap[key := n])
  {
    var d := Distinct(done);
    assert key !in d;
    DistinctSnoc(done, key);
    assert Distinct(done + [key]) == d + [key];
    MissVertices(d, f, w, vertices, key);
    NumberingSnoc(done, key);
    MapSnoc(d, vertexMap, key);
    BuiltIntro(done + [key], f, w, vertices + f(key), indices + [n], vertexMap[key := n]);
  }

  lemma MissVertices<K>(d: seq<K>, f: K -> seq<real>, w: nat, vertices: seq<real>, key: K)
    requires vertices == Concat(d, f) && |vertices| == w * |d| && |f(key)| == w
    ensures vertices + f(key) == Concat(d + [key], f)
    ensures |vertices + f(key)| == w * |d + [key]|
  {
    ConcatSnoc(d, f, key);
    assert w * (|d| + 1) == w * |d| + w;
  }

  lemma BuiltIntro<K(!new)>(done: seq<K>, f: K -> seq<real>, w: nat,
                                vertices: seq<real>, indices: seq<nat>, vertexMap: map<K, nat>)
    requires vertices == Concat(Distinct(done), f)
    requires |vertices| == w * |Distinct(done)|
    requires indices == Numbering(done)
    requires forall k :: k in vertexMap <==> k in Distinct(done)
    requires forall k :: k in vertexMap ==> vertexMap[k] == IndexOf(Distinct(done), k)
    ensures Built(done, f, w, vertices, indices, vertexMap)
  {}

  lemma ConcatSnoc<K>(d: seq<K>, f: K -> seq<real>, key: K)
    ensures Concat(d + [key], f) == Concat(d, f) + f(key)
  {
    assert (d + [key])[..|d|] == d;
  }

  lemma MapSnoc<K>(d: seq<K>, vertexMap: map<K, nat>, key: K)
    requires key !in d
    requires forall k :: k in vertexMap <==> k in d
    requires forall k :: k in vertexMap ==> vertexMap[k] == IndexOf(d, k)
    ensures var m := vertexMap[key := |d|];
      (forall k :: k in m <==> k in d + [key]) &&
      (forall k :: k in m ==> m[k] == IndexOf(d + [key], k))
  {
    var m := vertexMap[key := |d|];
    forall k | k in m
      ensures m[k] == IndexOf(d + [key], k)
    {
      if k != key {
        IndexOfExtend(d, [key], k);
      } else {
        assert (d + [key])[|d|] == key;
      }
    }
  }
}
