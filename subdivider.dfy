/**
 * `subdivide_segments` as values: one forward pass that replaces every move
 * longer than the threshold by the points of an even subdivision of it.
 * Distances are handled squared, so no square root is needed.
 */
module Subdivider {
  import opened Wrappers
  import opened Segments
  import PyNumbers

  function Sq(v: real): real {
    v * v
  }

  /** The squared Euclidean distance between the X, Y, Z of two dictionaries. */
  function DistSq(a: Coords, b: Coords): (d: real)
    ensures d >= 0.0
    ensures SamePosition(a, b) ==> d == 0.0
  {
    SquareNonNegative(b.x - a.x);
    SquareNonNegative(b.y - a.y);
    SquareNonNegative(b.z - a.z);
    Sq(b.x - a.x) + Sq(b.y - a.y) + Sq(b.z - a.z)
  }

  lemma SquareNonNegative(u: real)
    ensures Sq(u) >= 0.0
  {
    SquareOfReal(u);
  }

  lemma SquareOfReal(u: real)
    ensures u * u >= 0.0
  {
  }

  lemma BelowFloor(d2: real, t: real, m: nat)
    requires d2 >= 0.0 && t > 0.0 && Sq(m as real * t) < d2
    ensures m <= (d2 / (t * t)).Floor
  {
    var q := d2 / (t * t);
    assert Sq(m as real * t) == (m as real * m as real) * (t * t);
    assert m as real * m as real < q;
    assert m as real <= m as real * m as real;
  }

  /** The least `n >= m` with `(n t)^2 >= d2`. */
  function CountFrom(d2: real, t: real, m: nat): (n: nat)
    requires d2 >= 0.0 && t > 0.0
    requires m == 0 || Sq((m - 1) as real * t) < d2
    ensures n >= m && Sq(n as real * t) >= d2
    ensures n > 0 ==> Sq((n - 1) as real * t) < d2
    decreases (d2 / (t * t)).Floor + 1 - m
  {
    if Sq(m as real * t) >= d2 then m
    else
      BelowFloor(d2, t, m);
      CountFrom(d2, t, m + 1)
  }

  /**
   * `math.ceil(d / t)` for `d = sqrt(d2)`: the least `n` with `n t >= d`,
   * that is with `(n t)^2 >= d2`.  A move longer than the threshold gets at
   * least two samples.
   */
  function SubdivCount(d2: real, t: real): (n: nat)
    requires d2 >= 0.0 && t > 0.0
    ensures Sq(n as real * t) >= d2
    ensures n > 0 ==> Sq((n - 1) as real * t) < d2
    ensures d2 > t * t ==> n >= 2
  {
    var n := CountFrom(d2, t, 0);
    assert d2 > t * t ==> n != 0 && n != 1 by {
      if d2 > t * t {
        assert Sq(0.0 * t) == 0.0;
        assert Sq(1.0 * t) == t * t;
      }
    }
    n
  }

  /** Sample `i` of `np.linspace(a, b, num=n, endpoint=True)`. */
  function Lerp(a: real, b: real, n: nat, i: nat): real
    requires n >= 2
  {
    a + (b - a) * (i as real) / ((n - 1) as real)
  }

  lemma LerpEnds(a: real, b: real, n: nat, i: nat)
    requires n >= 2 && i < n
    ensures i == 0 ==> Lerp(a, b, n, i) == a
    ensures i == n - 1 ==> Lerp(a, b, n, i) == b
    ensures i > 0 ==> (Lerp(a, b, n, i) == a <==> a == b)
  {
    var d := (n - 1) as real;
    if i > 0 && Lerp(a, b, n, i) == a {
      assert (b - a) * (i as real) / d == 0.0;
      assert (b - a) * (i as real) == ((b - a) * (i as real) / d) * d;
      assert (b - a) * (i as real) == 0.0;
    }
    if a == b {
      assert (b - a) * (i as real) == 0.0;
    }
    if i == n - 1 {
      assert (b - a) * d / d == b - a;
    }
  }

  /** Point `i` of the subdivision of the move from `from` to `to` into `n` samples. */
  function SamplePoint(from: Coords, to: Coords, n: nat, i: nat): Point
    requires n >= 2
  {
    Point(Lerp(from.x, to.x, n, i), Lerp(from.y, to.y, n, i), Lerp(from.z, to.z, n, i))
  }

  /** The E of every sub-segment: `round(E / (n - 1), 5)` when E is positive, 0 otherwise. */
  function EShare(e: real, n: nat): real
    requires n >= 2
  {
    if e > 0.0 then PyNumbers.Round5(e / (n - 1) as real) else 0.0
  }

  /** The sub-segment at sample `i`: the original's kind, colour, tool, line, style and layer; F copied, E shared. */
  function SubSegment(cursor: Coords, seg: Segment, n: nat, i: nat): Segment
    requires n >= 2
  {
    var p := SamplePoint(cursor, seg.coords, n, i);
    NewSegment(seg.kind, Coords(p.x, p.y, p.z, seg.coords.f, EShare(seg.coords.e, n)),
               seg.color, seg.toolnumber, seg.lineNb, seg.line)
      .(layerIdx := seg.layerIdx, style := seg.style)
  }

  /** The sub-segments of samples `0..k-1` whose position differs from the cursor. */
  function Samples(cursor: Coords, seg: Segment, n: nat, k: nat): seq<Segment>
    requires n >= 2 && k <= n
  {
    if k == 0 then []
    else
      var sub := SubSegment(cursor, seg, n, k - 1);
      Samples(cursor, seg, n, k - 1) + (if SamePosition(sub.coords, cursor) then [] else [sub])
  }

  /** Same origin: the provenance a sub-segment shares with the segment it was cut from. */
  predicate SameOrigin(a: Segment, b: Segment) {
    a.kind == b.kind && a.color == b.color && a.toolnumber == b.toolnumber && a.lineNb == b.lineNb
    && a.line == b.line && a.style == b.style && a.layerIdx == b.layerIdx
  }

  /** The sample at `i > 0` of a move that changes position never coincides with the cursor. */
  lemma SampleMoves(cursor: Coords, seg: Segment, n: nat, i: nat)
    requires n >= 2 && 0 < i < n && !SamePosition(cursor, seg.coords)
    ensures !SamePosition(SubSegment(cursor, seg, n, i).coords, cursor)
  {
    LerpEnds(cursor.x, seg.coords.x, n, i);
    LerpEnds(cursor.y, seg.coords.y, n, i);
    LerpEnds(cursor.z, seg.coords.z, n, i);
  }

  /** Of the samples of a real move, only the first (the cursor itself) is dropped. */
  lemma {:induction false} SamplesAfterFirst(cursor: Coords, seg: Segment, n: nat, k: nat)
    requires n >= 2 && 1 <= k <= n && !SamePosition(cursor, seg.coords)
    ensures var p := Samples(cursor, seg, n, k);
            |p| == k - 1 && forall j :: 0 <= j < |p| ==> p[j] == SubSegment(cursor, seg, n, j + 1)
  {
    if k == 1 {
      LerpEnds(cursor.x, seg.coords.x, n, 0);
      LerpEnds(cursor.y, seg.coords.y, n, 0);
      LerpEnds(cursor.z, seg.coords.z, n, 0);
      assert SamePosition(SubSegment(cursor, seg, n, 0).coords, cursor);
    } else {
      SamplesAfterFirst(cursor, seg, n, k - 1);
      SampleMoves(cursor, seg, n, k - 1);
    }
  }

  /**
   * What one segment becomes.  Within the threshold (distance compared
   * squared, so a move exactly as long as the threshold stays) it passes
   * through with its distance recorded; otherwise it is replaced by the
   * `n - 1` samples after the cursor, the last of which is the segment's own
   * end point.  Either way the replacement is non-empty and every piece keeps
   * the segment's provenance.
   */
  function Piece(cursor: Coords, seg: Segment, t: real): (p: seq<Segment>)
    requires t > 0.0
    ensures DistSq(cursor, seg.coords) <= t * t ==> p == [seg.(distanceSq := Some(DistSq(cursor, seg.coords)))]
    ensures p != [] && SamePosition(p[|p| - 1].coords, seg.coords)
    ensures forall j :: 0 <= j < |p| ==> SameOrigin(p[j], seg)
  {
    var d2 := DistSq(cursor, seg.coords);
    if d2 > t * t then
      var n := SubdivCount(d2, t);
      SamplesAfterFirst(cursor, seg, n, n);
      LerpEnds(cursor.x, seg.coords.x, n, n - 1);
      LerpEnds(cursor.y, seg.coords.y, n, n - 1);
      LerpEnds(cursor.z, seg.coords.z, n, n - 1);
      Samples(cursor, seg, n, n)
    else [seg.(distanceSq := Some(d2))]
  }

  /**
   * A move longer than the threshold becomes `n - 1 >= 1` sub-segments, `n`
   * being the subdivision count: sample `j + 1` of the even subdivision, F
   * copied, E the rounded share `E / (n - 1)` (0 when E is not positive), no
   * distance recorded.
   */
  lemma LongSegmentPieces(cursor: Coords, seg: Segment, t: real)
    requires t > 0.0 && DistSq(cursor, seg.coords) > t * t
    ensures var n := SubdivCount(DistSq(cursor, seg.coords), t);
            var p := Piece(cursor, seg, t);
            && n >= 2 && |p| == n - 1
            && forall j :: 0 <= j < |p| ==>
                 && PointOf(p[j].coords) == SamplePoint(cursor, seg.coords, n, j + 1)
                 && p[j].coords.f == seg.coords.f
                 && p[j].coords.e == EShare(seg.coords.e, n)
                 && p[j].distanceSq.None?
  {
    var n := SubdivCount(DistSq(cursor, seg.coords), t);
    SamplesAfterFirst(cursor, seg, n, n);
  }

  /** `self.segments` after the first `j` original segments have been processed. */
  function SubdivideTo(segs: seq<Segment>, t: real, j: nat): seq<Segment>
    requires t > 0.0 && j <= |segs|
  {
    if j == 0 then [] else SubdivideTo(segs, t, j - 1) + Piece(Prev(segs, j - 1), segs[j - 1], t)
  }

  /** `subdivide_segments(t)`: the new segment list. */
  function Subdivide(segs: seq<Segment>, t: real): seq<Segment>
    requires t > 0.0
  {
    SubdivideTo(segs, t, |segs|)
  }

  /** Every move within the threshold of its predecessor. */
  predicate AllShort(segs: seq<Segment>, t: real) {
    forall i :: 0 <= i < |segs| ==> DistSq(Prev(segs, i), segs[i].coords) <= t * t
  }

  /** A move within the threshold, passed through with its squared distance recorded. */
  function Recorded(segs: seq<Segment>, i: nat): Segment
    requires i < |segs|
  {
    segs[i].(distanceSq := Some(DistSq(Prev(segs, i), segs[i].coords)))
  }

  /** When no move exceeds the threshold, subdivision only records each move's distance. */
  lemma {:induction false} ShortSegmentsPassThrough(segs: seq<Segment>, t: real, j: nat)
    requires t > 0.0 && j <= |segs| && AllShort(segs, t)
    ensures var out := SubdivideTo(segs, t, j);
            |out| == j && forall i :: 0 <= i < j ==> out[i] == Recorded(segs, i)
  {
    if j > 0 {
      ShortSegmentsPassThrough(segs, t, j - 1);
      var before := SubdivideTo(segs, t, j - 1);
      assert DistSq(Prev(segs, j - 1), segs[j - 1].coords) <= t * t;
      var out := before + [Recorded(segs, j - 1)];
      assert SubdivideTo(segs, t, j) == out;
      assert forall i :: 0 <= i < j - 1 ==> out[i] == before[i];
    }
  }

  /**
   * Subdivision never loses a move: after the first `j` original segments
   * the output holds at least `j` segments and ends at the end point of
   * segment `j - 1`.
   */
  lemma {:induction false} SubdivideGrows(segs: seq<Segment>, t: real, j: nat)
    requires t > 0.0 && j <= |segs|
    ensures var out := SubdivideTo(segs, t, j);
            |out| >= j && (j > 0 ==> SamePosition(out[|out| - 1].coords, segs[j - 1].coords))
  {
    if j > 0 {
      SubdivideGrows(segs, t, j - 1);
      var before := SubdivideTo(segs, t, j - 1);
      var piece := Piece(Prev(segs, j - 1), segs[j - 1], t);
      var out := before + piece;
      assert out[|out| - 1] == piece[|piece| - 1];
      assert out == SubdivideTo(segs, t, j);
    }
  }

  /** `s` shares the provenance of one of the first `j` input segments. */
  predicate FromInput(s: Segment, segs: seq<Segment>, j: nat)
    requires j <= |segs|
  {
    exists i :: 0 <= i < j && SameOrigin(s, segs[i])
  }

  /** Every output segment carries the provenance of one of the input segments. */
  lemma {:induction false} SubdivideProvenance(segs: seq<Segment>, t: real, j: nat)
    requires t > 0.0 && j <= |segs|
    ensures forall k :: 0 <= k < |SubdivideTo(segs, t, j)| ==> FromInput(SubdivideTo(segs, t, j)[k], segs, j)
  {
    if j > 0 {
      SubdivideProvenance(segs, t, j - 1);
      var before := SubdivideTo(segs, t, j - 1);
      var piece := Piece(Prev(segs, j - 1), segs[j - 1], t);
      var out := before + piece;
      forall k | 0 <= k < |out| ensures FromInput(out[k], segs, j) {
        if k >= |before| {
          assert out[k] == piece[k - |before|];
          assert SameOrigin(out[k], segs[j - 1]);
        } else {
          assert out[k] == before[k];
          assert FromInput(before[k], segs, j - 1);
          var i :| 0 <= i < j - 1 && SameOrigin(before[k], segs[i]);
          assert SameOrigin(out[k], segs[i]);
        }
      }
      assert out == SubdivideTo(segs, t, j);
    }
  }

  predicate LinesInOrder(segs: seq<Segment>) {
    forall i, j :: 0 <= i < j < |segs| ==> segs[i].lineNb <= segs[j].lineNb
  }

  /** Appending a block on one line number to output in order up to that line keeps it in order. */
  lemma AppendInOrder(before: seq<Segment>, piece: seq<Segment>, line: int)
    requires LinesInOrder(before) && forall k :: 0 <= k < |before| ==> before[k].lineNb <= line
    requires forall k :: 0 <= k < |piece| ==> piece[k].lineNb == line
    ensures LinesInOrder(before + piece)
    ensures forall k :: 0 <= k < |before + piece| ==> (before + piece)[k].lineNb <= line
  {
    var out := before + piece;
    forall a, b | 0 <= a < b < |out| ensures out[a].lineNb <= out[b].lineNb {
      if b < |before| {
        assert out[a] == before[a] && out[b] == before[b];
      } else if a < |before| {
        assert out[a] == before[a] && out[b] == piece[b - |before|];
      } else {
        assert out[a] == piece[a - |before|] && out[b] == piece[b - |before|];
      }
    }
    forall k | 0 <= k < |out| ensures out[k].lineNb <= line {
      if k < |before| {
        assert out[k] == before[k];
      } else {
        assert out[k] == piece[k - |before|];
      }
    }
  }

  /** Line numbers in order stay in order, none beyond that of the last segment processed. */
  lemma {:induction false} SubdivideKeepsOrder(segs: seq<Segment>, t: real, j: nat)
    requires t > 0.0 && j <= |segs| && LinesInOrder(segs)
    ensures var out := SubdivideTo(segs, t, j);
            && LinesInOrder(out)
            && (j > 0 ==> forall k :: 0 <= k < |out| ==> out[k].lineNb <= segs[j - 1].lineNb)
  {
    if j > 0 {
      SubdivideKeepsOrder(segs, t, j - 1);
      var before := SubdivideTo(segs, t, j - 1);
      var piece := Piece(Prev(segs, j - 1), segs[j - 1], t);
      forall k | 0 <= k < |piece| ensures piece[k].lineNb == segs[j - 1].lineNb {
        assert SameOrigin(piece[k], segs[j - 1]);
      }
      assert j > 1 ==> segs[j - 2].lineNb <= segs[j - 1].lineNb;
      AppendInOrder(before, piece, segs[j - 1].lineNb);
    }
  }
}
