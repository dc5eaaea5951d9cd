/**
 * The one-dimensional tiling that both the tiled image display and the
 * border sides perform: pieces of a fixed length laid end to end along a
 * span, the last one cut short to what remains.
 */
module Tiling {
  import opened Ints

  /** A piece of the span: where it starts and how long it is. */
  datatype Segment = Segment(offset: int, len: NonZeroU32)

  /**
   * The pieces of length t along [offset, offset + left): a full piece while
   * more than t remains, then the rest if any remains.
   */
  function SegmentsFrom(offset: int, left: int, t: NonZeroU32): seq<Segment>
    decreases left
  {
    if left <= 0 then []
    else if left <= t then [Segment(offset, left)]
    else [Segment(offset, t)] + SegmentsFrom(offset + t, left - t, t)
  }

  function TotalLength(s: seq<Segment>): int
  {
    if |s| == 0 then 0 else s[0].len + TotalLength(s[1..])
  }

  /** The i-th piece starts i full lengths in; all but the last are full; the last ends where the span ends. */
  lemma {:induction false} SegmentsShape(offset: int, left: int, t: NonZeroU32)
    ensures var s := SegmentsFrom(offset, left, t);
      && (|s| == 0 <==> left <= 0)
      && (forall i :: 0 <= i < |s| ==> s[i].offset == offset + i * t)
      && (forall i :: 0 <= i < |s| - 1 ==> s[i].len == t)
      && (|s| > 0 ==> s[|s| - 1].len <= t && s[|s| - 1].offset + s[|s| - 1].len == offset + left)
    decreases left
  {
    var s := SegmentsFrom(offset, left, t);
    if left > t {
      var rest := SegmentsFrom(offset + t, left - t, t);
      SegmentsShape(offset + t, left - t, t);
      assert s == [Segment(offset, t)] + rest;
      forall i | 1 <= i < |s|
        ensures s[i].offset == offset + i * t
      {
        assert s[i] == rest[i - 1];
        assert (i - 1) * t + t == i * t;
      }
    }
  }

  /** Consecutive pieces touch: each starts where the one before it ends. */
  lemma Contiguous(offset: int, left: int, t: NonZeroU32)
    ensures var s := SegmentsFrom(offset, left, t);
      forall i :: 0 <= i < |s| - 1 ==> s[i + 1].offset == s[i].offset + s[i].len
  {
    SegmentsShape(offset, left, t);
    var s := SegmentsFrom(offset, left, t);
    forall i | 0 <= i < |s| - 1
      ensures s[i + 1].offset == s[i].offset + s[i].len
    {
      assert (i + 1) * t == i * t + t;
    }
  }

  /** The number of pieces is the ceiling of left / t: the least count whose full lengths reach left. */
  lemma {:induction false} SegmentsCount(offset: int, left: int, t: NonZeroU32)
    requires left > 0
    ensures var n := |SegmentsFrom(offset, left, t)|;
      (n - 1) * t < left <= n * t
    decreases left
  {
    if left > t {
      SegmentsCount(offset + t, left - t, t);
      var m := |SegmentsFrom(offset + t, left - t, t)|;
      assert |SegmentsFrom(offset, left, t)| == m + 1;
      assert (m + 1) * t == m * t + t;
    }
  }

  /** The last piece is the remainder of left by t, or a full piece when t divides left. */
  lemma LastPiece(offset: int, left: int, t: NonZeroU32)
    requires left > 0
    ensures var s := SegmentsFrom(offset, left, t);
      s[|s| - 1].len == (if left % t == 0 then t else left % t)
  {
    SegmentsShape(offset, left, t);
    var s := SegmentsFrom(offset, left, t);
    var n := |s|;
    var last := s[n - 1].len;
    assert left == (n - 1) * t + last;
    if last == t {
      assert left == n * t;
      assert left % t == 0 by { EuclidUnique(left, t, n, 0); }
    } else {
      EuclidUnique(left, t, n - 1, last);
    }
  }

  /** Euclidean division is unique. */
  lemma EuclidUnique(a: int, b: int, q: int, r: int)
    requires b > 0 && 0 <= r < b && a == q * b + r
    ensures a / b == q && a % b == r
  {
    var q0, r0 := a / b, a % b;
    var d := q - q0;
    assert d * b == r0 - r by {
      assert q * b - q0 * b == (q - q0) * b;
    }
    if d >= 1 {
      MulAtLeast(d, b);
    } else if d <= -1 {
      MulAtLeast(-d, b);
    }
  }

  lemma MulSucc(a: int, n: int)
    ensures (a + 1) * n == a * n + n
  {
  }

  lemma MulAtLeast(d: int, b: int)
    requires d >= 1 && b > 0
    ensures d * b >= b
  {
    assert d * b == (d - 1) * b + b;
    assert (d - 1) * b >= 0;
  }

  /** The pieces' lengths add up to the span. */
  lemma {:induction false} SegmentsTotal(offset: int, left: int, t: NonZeroU32)
    requires left >= 0
    ensures TotalLength(SegmentsFrom(offset, left, t)) == left
    decreases left
  {
    var s := SegmentsFrom(offset, left, t);
    if left > t {
      SegmentsTotal(offset + t, left - t, t);
      assert s[1..] == SegmentsFrom(offset + t, left - t, t);
    } else if left > 0 {
      assert s[1..] == [];
    }
  }

  /** Piece i of s contains d. */
  predicate InPiece(s: seq<Segment>, i: int, d: int)
  {
    0 <= i < |s| && s[i].offset <= d < s[i].offset + s[i].len
  }

  /** The piece that contains a point of the span. */
  lemma {:induction false} PieceOf(offset: int, left: int, t: NonZeroU32, d: int) returns (i: nat)
    requires offset <= d < offset + left
    ensures InPiece(SegmentsFrom(offset, left, t), i, d)
    decreases left
  {
    var s := SegmentsFrom(offset, left, t);
    if left > t && d >= offset + t {
      var rest := SegmentsFrom(offset + t, left - t, t);
      var k := PieceOf(offset + t, left - t, t, d);
      assert s == [Segment(offset, t)] + rest;
      assert s[k + 1] == rest[k];
      i := k + 1;
    } else {
      i := 0;
    }
  }

  /** Only points of the span lie in a piece. */
  lemma {:induction false} PieceInSpan(offset: int, left: int, t: NonZeroU32, d: int, i: int)
    requires InPiece(SegmentsFrom(offset, left, t), i, d)
    ensures offset <= d < offset + left
    decreases left
  {
    var s := SegmentsFrom(offset, left, t);
    if left > t && i > 0 {
      var rest := SegmentsFrom(offset + t, left - t, t);
      assert s == [Segment(offset, t)] + rest;
      assert s[i] == rest[i - 1];
      PieceInSpan(offset + t, left - t, t, d, i - 1);
    }
  }

  /** Pieces do not overlap: an earlier piece ends no later than a later one starts. */
  lemma Disjoint(offset: int, left: int, t: NonZeroU32, i: int, j: int)
    requires 0 <= i < j < |SegmentsFrom(offset, left, t)|
    ensures var s := SegmentsFrom(offset, left, t);
      s[i].offset + s[i].len <= s[j].offset
  {
    SegmentsShape(offset, left, t);
    MulAtLeast(j - i, t);
    assert j * t - i * t == (j - i) * t;
  }

  /** No point lies in two pieces. */
  lemma UniquePiece(offset: int, left: int, t: NonZeroU32, d: int, i: int, j: int)
    requires InPiece(SegmentsFrom(offset, left, t), i, d) && InPiece(SegmentsFrom(offset, left, t), j, d)
    ensures i == j
  {
    if i < j {
      Disjoint(offset, left, t, i, j);
    } else if j < i {
      Disjoint(offset, left, t, j, i);
    }
  }
}
