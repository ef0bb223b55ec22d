/** Splitting the record array into page-sized batches. */
module Pagination {
  import opened Geometry

  function Min(a: int, b: int): int
  {
    if a <= b then a else b
  }

  /** The number of pages needed for `n` records: the least `p` with
      `p * QrPerPage >= n`. */
  function PageCount(n: nat): (p: nat)
    ensures p * QrPerPage >= n
    ensures p * QrPerPage < n + QrPerPage
  {
    (n + QrPerPage - 1) / QrPerPage
  }

  /** The page count is the only number of pages that both covers every
      record and leaves no page empty. */
  lemma PageCountUnique(n: nat, p: nat)
    requires p * QrPerPage >= n && p * QrPerPage < n + QrPerPage
    ensures p == PageCount(n)
  {
  }

  /** Reference definition of the batches: consecutive slices of at most
      `QrPerPage` elements, in order, none empty. */
  function Batches<T>(s: seq<T>): (b: seq<seq<T>>)
    ensures forall p :: 0 <= p < |b| ==> 0 < |b[p]| <= QrPerPage
    decreases |s|
  {
    if |s| == 0 then []
    else
      var m := Min(QrPerPage, |s|);
      [s[..m]] + Batches(s[m..])
  }

  function Flatten<T>(b: seq<seq<T>>): seq<T>
    decreases |b|
  {
    if |b| == 0 then [] else b[0] + Flatten(b[1..])
  }

  /** Concatenating the batches gives back the input: every element lands
      in exactly one batch, in its original order. */
  lemma {:induction false} FlattenBatches<T>(s: seq<T>)
    ensures Flatten(Batches(s)) == s
    decreases |s|
  {
    if |s| > 0 {
      var m := Min(QrPerPage, |s|);
      FlattenBatches(s[m..]);
      assert Batches(s)[1..] == Batches(s[m..]);
      assert s[..m] + s[m..] == s;
    }
  }

  /** There are exactly `PageCount(|s|)` batches. */
  lemma {:induction false} BatchCount<T>(s: seq<T>)
    ensures |Batches(s)| == PageCount(|s|)
    decreases |s|
  {
    if |s| > 0 {
      var m := Min(QrPerPage, |s|);
      BatchCount(s[m..]);
      PageCountUnique(|s|, PageCount(|s[m..]|) + 1);
    }
  }

  /** Batch `p` holds the elements with indices `QrPerPage * p` up to but
      excluding `Min(QrPerPage * p + QrPerPage, |s|)`. */
  lemma {:induction false} BatchContents<T>(s: seq<T>, p: nat)
    requires p < |Batches(s)|
    ensures QrPerPage * p < |s|
    ensures Batches(s)[p] == s[QrPerPage * p .. Min(QrPerPage * p + QrPerPage, |s|)]
    decreases p
  {
    var m := Min(QrPerPage, |s|);
    if p > 0 {
      assert Batches(s)[p] == Batches(s[m..])[p - 1];
      BatchContents(s[m..], p - 1);
      assert m == QrPerPage;
      assert s[m..][QrPerPage * (p - 1) .. Min(QrPerPage * (p - 1) + QrPerPage, |s| - m)]
          == s[QrPerPage * p .. Min(QrPerPage * p + QrPerPage, |s|)];
    }
  }
}
