/** Connected components of a binary mask under 8-connectivity
    (`measure.label(..., connectivity=2)`), stated as predicates: a
    labelling splits a pixel set into non-empty, connected parts that do
    not touch one another. The number of labels is then determined by the
    set alone. */
module Connectivity {

  /** A pixel as `(row, column)`. */
  type Pixel = (int, int)

  /** Two distinct pixels touching by an edge or a corner. */
  predicate Adjacent(p: Pixel, q: Pixel)
  {
    p != q && -1 <= p.0 - q.0 <= 1 && -1 <= p.1 - q.1 <= 1
  }

  /** A chain of adjacent pixels, all inside `s`. */
  ghost predicate IsPath(path: seq<Pixel>, s: set<Pixel>)
  {
    && |path| > 0
    && (forall k :: 0 <= k < |path| ==> path[k] in s)
    && (forall k :: 0 < k < |path| ==> Adjacent(path[k - 1], path[k]))
  }

  ghost predicate Reachable(p: Pixel, q: Pixel, s: set<Pixel>)
  {
    exists path :: IsPath(path, s) && path[0] == p && path[|path| - 1] == q
  }

  /** Every pixel of `c` reaches every other without leaving `c`. */
  ghost predicate Connected(c: set<Pixel>)
  {
    forall p, q :: p in c && q in c ==> Reachable(p, q, c)
  }

  /** Disjoint and not touching anywhere. */
  predicate Separated(a: set<Pixel>, b: set<Pixel>)
  {
    forall p, q :: p in a && q in b ==> p != q && !Adjacent(p, q)
  }

  /** Non-empty parts, each connected within itself. */
  ghost predicate ConnectedParts(parts: seq<set<Pixel>>)
  {
    forall i :: 0 <= i < |parts| ==> parts[i] != {} && Connected(parts[i])
  }

  /** No two parts touch. */
  predicate PairwiseSeparated(parts: seq<set<Pixel>>)
  {
    forall i, j :: 0 <= i < j < |parts| ==> Separated(parts[i], parts[j])
  }

  /** `parts` are the 8-connected components of `s`, in some order. */
  ghost predicate IsLabelling(s: set<Pixel>, parts: seq<set<Pixel>>)
  {
    ConnectedParts(parts) && PairwiseSeparated(parts) && Union(parts) == s
  }

  /** A path inside `s` that starts in one part never leaves it. */
  lemma {:induction false} PathStaysInPart(s: set<Pixel>, parts: seq<set<Pixel>>, path: seq<Pixel>, i: nat, k: nat)
    requires PairwiseSeparated(parts) && Union(parts) == s
    requires IsPath(path, s)
    requires i < |parts| && path[0] in parts[i]
    requires k < |path|
    ensures path[k] in parts[i]
  {
    if k > 0 {
      PathStaysInPart(s, parts, path, i, k - 1);
      var p, q := path[k - 1], path[k];
      UnionCovers(parts);
      var j :| 0 <= j < |parts| && q in parts[j];
      assert Adjacent(q, p);
      assert j == i;
    }
  }

  /** Each part of one labelling is a part of any other labelling of the same set. */
  lemma PartMatches(s: set<Pixel>, a: seq<set<Pixel>>, b: seq<set<Pixel>>, i: nat)
    requires IsLabelling(s, a) && IsLabelling(s, b)
    requires i < |a|
    ensures exists j :: 0 <= j < |b| && a[i] == b[j]
  {
    assert a[i] != {};
    var p :| p in a[i];
    UnionCovers(b);
    var j :| 0 <= j < |b| && p in b[j];
    PartWithin(s, a, b, i, j, p);
    PartWithin(s, b, a, j, i, p);
  }

  /** A part of `a` and a part of `b` that share a pixel: the first lies in the second. */
  lemma PartWithin(s: set<Pixel>, a: seq<set<Pixel>>, b: seq<set<Pixel>>, i: nat, j: nat, p: Pixel)
    requires IsLabelling(s, a) && IsLabelling(s, b)
    requires i < |a| && j < |b|
    requires p in a[i] && p in b[j]
    ensures a[i] <= b[j]
  {
    forall q | q in a[i]
      ensures q in b[j]
    {
      assert Reachable(p, q, a[i]);
      var path :| IsPath(path, a[i]) && path[0] == p && path[|path| - 1] == q;
      assert IsPath(path, s);
      PathStaysInPart(s, b, path, j, |path| - 1);
    }
  }

  /** The parts of a labelling, as a set. */
  ghost function PartSet(parts: seq<set<Pixel>>): set<set<Pixel>>
  {
    set i | 0 <= i < |parts| :: parts[i]
  }

  /** The parts of a labelling are pairwise distinct, so there are as many
      parts as labels. */
  lemma {:induction false} LabelsAreDistinct(parts: seq<set<Pixel>>)
    requires forall i :: 0 <= i < |parts| ==> parts[i] != {}
    requires PairwiseSeparated(parts)
    ensures |PartSet(parts)| == |parts|
  {
    if parts != [] {
      var n := |parts| - 1;
      var init := parts[..n];
      assert PairwiseSeparated(init);
      LabelsAreDistinct(init);
      assert PartSet(parts) == PartSet(init) + {parts[n]};
      if parts[n] in PartSet(init) {
        var i :| 0 <= i < n && init[i] == parts[n];
        assert parts[n] != {};
        var p :| p in parts[n];
        assert false;
      }
    }
  }

  /** The union of a sequence of pixel sets. */
  ghost function Union(parts: seq<set<Pixel>>): (u: set<Pixel>)
    ensures forall i :: 0 <= i < |parts| ==> parts[i] <= u
  {
    if parts == [] then {} else Union(parts[..|parts| - 1]) + parts[|parts| - 1]
  }

  /** Every pixel of the union lies in some part. */
  lemma {:induction false} UnionCovers(parts: seq<set<Pixel>>)
    ensures forall p :: p in Union(parts) ==> exists i :: 0 <= i < |parts| && p in parts[i]
  {
    if parts != [] {
      var n := |parts| - 1;
      UnionCovers(parts[..n]);
      forall p | p in Union(parts)
        ensures exists i :: 0 <= i < |parts| && p in parts[i]
      {
        if p !in parts[n] {
          assert p in Union(parts[..n]);
          var i :| 0 <= i < n && p in parts[..n][i];
          assert p in parts[i];
        }
      }
    }
  }

  /** Non-empty, connected, mutually separated sets are the components of
      their union. */
  lemma UnionLabelling(parts: seq<set<Pixel>>)
    requires forall i :: 0 <= i < |parts| ==> parts[i] != {} && Connected(parts[i])
    requires forall i, j :: 0 <= i < j < |parts| ==> Separated(parts[i], parts[j])
    ensures IsLabelling(Union(parts), parts)
  {
  }

  /** Any two labellings of one set have the same number of labels: the
      count of components does not depend on the labelling order. */
  lemma LabelCountUnique(s: set<Pixel>, a: seq<set<Pixel>>, b: seq<set<Pixel>>)
    requires IsLabelling(s, a) && IsLabelling(s, b)
    ensures |a| == |b|
  {
    forall x | x in PartSet(a)
      ensures x in PartSet(b)
    {
      var i :| 0 <= i < |a| && a[i] == x;
      PartMatches(s, a, b, i);
    }
    forall x | x in PartSet(b)
      ensures x in PartSet(a)
    {
      var j :| 0 <= j < |b| && b[j] == x;
      PartMatches(s, b, a, j);
    }
    assert PartSet(a) == PartSet(b);
    LabelsAreDistinct(a);
    LabelsAreDistinct(b);
  }
}
