/**
 * `classifySegments` as values: one forward scan over the segment list that
 * labels each move `travel` or `extrude`, numbers the layers, and cuts the
 * list into layers at a Z change followed by extrusion.
 */
module Classifier {
  import opened Wrappers
  import opened Segments

  /** "extrude" when the move changes X, Y or Z and its E is positive, "travel" otherwise. */
  function StyleOf(prev: Coords, c: Coords): Style {
    if !SamePosition(prev, c) && c.e > 0.0 then Extrude else Travel
  }

  /**
   * The loop variables of `classifySegments` between two iterations: the
   * cursor `coords`, `currentLayerIdx`, `currentLayerZ`, the open `layer` and
   * the layers already closed.
   */
  datatype Scan = Scan(prev: Coords, layerIdx: int, layerZ: real, layer: seq<Segment>, closed: seq<seq<Segment>>)

  const Start: Scan := Scan(Origin, 0, 0.0, [], [])

  /** Segment `i` closes the open layer: it is not the last, its Z differs from the layer's, and the next one extrudes. */
  predicate OpensLayer(segs: seq<Segment>, i: nat, layerZ: real)
    requires i < |segs|
  {
    i < |segs| - 1 && segs[i].coords.z != layerZ && segs[i + 1].coords.e > 0.0
  }

  /** The scan after a boundary at segment `i`, if there is one. */
  function Boundary(segs: seq<Segment>, i: nat, sc: Scan): Scan
    requires i < |segs|
  {
    if OpensLayer(segs, i, sc.layerZ) then Scan(sc.prev, sc.layerIdx + 1, segs[i].coords.z, [], sc.closed + [sc.layer])
    else sc
  }

  /** Segment `i` with its style and layer index, given the scan before it. */
  function LabelWith(segs: seq<Segment>, i: nat, sc: Scan): Segment
    requires i < |segs|
  {
    segs[i].(style := StyleOf(sc.prev, segs[i].coords), layerIdx := Some(Boundary(segs, i, sc).layerIdx))
  }

  /** One iteration of the loop of `classifySegments`. */
  function Advance(segs: seq<Segment>, i: nat, sc: Scan): Scan
    requires i < |segs|
  {
    var b := Boundary(segs, i, sc);
    b.(prev := segs[i].coords, layer := b.layer + [LabelWith(segs, i, sc)])
  }

  /** The scan after the first `n` segments. */
  function ScanTo(segs: seq<Segment>, n: nat): (sc: Scan)
    requires n <= |segs|
    ensures sc.prev == Prev(segs, n)
    decreases n
  {
    if n == 0 then Start else Advance(segs, n - 1, ScanTo(segs, n - 1))
  }

  /**
   * Segment `i` as classified: the same move with a style and a layer index.
   * Its style is "extrude" exactly when it changes position relative to the
   * previous segment (the origin for the first) and carries positive E.
   */
  function Label(segs: seq<Segment>, i: nat): (r: Segment)
    requires i < |segs|
    ensures r == segs[i].(style := r.style, layerIdx := r.layerIdx)
    ensures r.style == Extrude <==> !SamePosition(Prev(segs, i), segs[i].coords) && segs[i].coords.e > 0.0
    ensures r.style == Travel <==> !(r.style == Extrude)
    ensures r.layerIdx.Some?
  {
    LabelWith(segs, i, ScanTo(segs, i))
  }

  /** The layer index given to segment `i`. */
  function LayerOf(segs: seq<Segment>, i: nat): int
    requires i < |segs|
  {
    Label(segs, i).layerIdx.value
  }

  /** `self.segments` after `classifySegments`. */
  function Labelled(segs: seq<Segment>): (r: seq<Segment>)
    ensures |r| == |segs| && forall i :: 0 <= i < |segs| ==> r[i] == Label(segs, i)
  {
    seq(|segs|, i requires 0 <= i < |segs| => Label(segs, i))
  }

  /** The layers `classifySegments` appends to `self.layers`: the closed ones, then the open one unless empty. */
  function Layers(segs: seq<Segment>): seq<seq<Segment>> {
    var sc := ScanTo(segs, |segs|);
    sc.closed + (if sc.layer != [] then [sc.layer] else [])
  }

  function Flatten(layers: seq<seq<Segment>>): seq<Segment> {
    if layers == [] then [] else Flatten(layers[..|layers| - 1]) + layers[|layers| - 1]
  }

  lemma {:induction false} FlattenAppend(layers: seq<seq<Segment>>, layer: seq<Segment>)
    ensures Flatten(layers + [layer]) == Flatten(layers) + layer
  {
    assert (layers + [layer])[..|layers|] == layers;
  }

  /** The closed layers and the open one, concatenated, are the classified prefix. */
  predicate ScanCovers(segs: seq<Segment>, n: nat, sc: Scan)
    requires n <= |segs|
  {
    Flatten(sc.closed) + sc.layer == Labelled(segs)[..n]
  }

  /** Layers are numbered by position and only the first can be empty. */
  predicate ScanNumbered(n: nat, sc: Scan) {
    && sc.layerIdx == |sc.closed|
    && (forall k, j :: 0 <= k < |sc.closed| && 0 <= j < |sc.closed[k]| ==> sc.closed[k][j].layerIdx == Some(k))
    && (forall j :: 0 <= j < |sc.layer| ==> sc.layer[j].layerIdx == Some(sc.layerIdx))
    && (forall k :: 0 < k < |sc.closed| ==> sc.closed[k] != [])
    && (n > 0 ==> sc.layer != [])
  }

  /** What holds of the scan after every prefix. */
  predicate ScanInvariant(segs: seq<Segment>, n: nat, sc: Scan)
    requires n <= |segs|
  {
    ScanCovers(segs, n, sc) && ScanNumbered(n, sc)
  }

  lemma {:induction false} ScanCoversPrefix(segs: seq<Segment>, n: nat)
    requires n <= |segs|
    ensures ScanCovers(segs, n, ScanTo(segs, n))
    decreases n
  {
    if n > 0 {
      var i := n - 1;
      ScanCoversPrefix(segs, i);
      var sc := ScanTo(segs, i);
      var b := Boundary(segs, i, sc);
      var lab := LabelWith(segs, i, sc);
      assert lab == Labelled(segs)[i];
      if OpensLayer(segs, i, sc.layerZ) {
        FlattenAppend(sc.closed, sc.layer);
        assert Flatten(b.closed) + [lab] == Labelled(segs)[..i] + [lab];
      }
      assert Labelled(segs)[..n] == Labelled(segs)[..i] + [lab];
    }
  }

  lemma {:induction false} ScanNumberedPrefix(segs: seq<Segment>, n: nat)
    requires n <= |segs|
    ensures ScanNumbered(n, ScanTo(segs, n))
    decreases n
  {
    if n > 0 {
      ScanNumberedPrefix(segs, n - 1);
    }
  }

  lemma ScanFacts(segs: seq<Segment>, n: nat)
    requires n <= |segs|
    ensures ScanInvariant(segs, n, ScanTo(segs, n))
  {
    ScanCoversPrefix(segs, n);
    ScanNumberedPrefix(segs, n);
  }

  /** The layers, concatenated, give back the classified segment list in order. */
  lemma LayersCoverSegments(segs: seq<Segment>)
    ensures Flatten(Layers(segs)) == Labelled(segs)
  {
    var sc := ScanTo(segs, |segs|);
    ScanFacts(segs, |segs|);
    if sc.layer != [] {
      FlattenAppend(sc.closed, sc.layer);
    }
    assert Labelled(segs)[..|segs|] == Labelled(segs);
  }

  /**
   * Layer `k` holds exactly segments labelled `k`; only the first layer can
   * be empty (when the very first segment opens a layer); with segments
   * there is one layer per index up to the last segment's.
   */
  lemma LayersNumbered(segs: seq<Segment>)
    ensures var layers := Layers(segs);
            && (forall k, j :: 0 <= k < |layers| && 0 <= j < |layers[k]| ==> layers[k][j].layerIdx == Some(k))
            && (forall k :: 0 < k < |layers| ==> layers[k] != [])
            && (segs == [] <==> layers == [])
            && (segs != [] ==> |layers| == LayerOf(segs, |segs| - 1) + 1)
  {
    var sc := ScanTo(segs, |segs|);
    ScanFacts(segs, |segs|);
    if segs != [] {
      var i := |segs| - 1;
      ScanFacts(segs, i);
      assert !OpensLayer(segs, i, ScanTo(segs, i).layerZ);
    }
  }

  /**
   * Layer indices start at 0 or 1 and never fall; each segment raises the
   * index by at most one, and the last segment never opens a layer.
   */
  lemma LayerIndexSteps(segs: seq<Segment>, i: nat)
    requires i < |segs|
    ensures i == 0 ==> 0 <= LayerOf(segs, 0) <= 1
    ensures i > 0 ==> LayerOf(segs, i - 1) <= LayerOf(segs, i) <= LayerOf(segs, i - 1) + 1
    ensures i == |segs| - 1 && i > 0 ==> LayerOf(segs, i) == LayerOf(segs, i - 1)
    ensures i == |segs| - 1 && i == 0 ==> LayerOf(segs, i) == 0
  {
    ScanFacts(segs, i);
    if i > 0 {
      ScanFacts(segs, i - 1);
    }
  }

  /**
   * The height of the current layer before segment `i`: the Z of the last
   * earlier segment that opened a layer, 0.0 when none did.  Defined on the
   * segments alone, independently of the scan.
   */
  function LayerZBefore(segs: seq<Segment>, i: nat): real
    requires i <= |segs|
    decreases i
  {
    if i == 0 then 0.0
    else
      var z := LayerZBefore(segs, i - 1);
      var j := i - 1;
      if j < |segs| - 1 && segs[j + 1].coords.e > 0.0 && segs[j].coords.z != z then segs[j].coords.z else z
  }

  /** The scan's `currentLayerZ` is the height of the current layer. */
  lemma {:induction false} ScanLayerZ(segs: seq<Segment>, n: nat)
    requires n <= |segs|
    ensures ScanTo(segs, n).layerZ == LayerZBefore(segs, n)
    decreases n
  {
    if n > 0 {
      ScanLayerZ(segs, n - 1);
    }
  }

  /**
   * When a layer opens: segment `i` gets the index of the segment before it
   * (0 before the first) plus one exactly when it is not the last segment,
   * the next segment has positive E, and its Z differs from the height of
   * the current layer; otherwise it keeps that index.
   */
  lemma LayerOpensExactly(segs: seq<Segment>, i: nat)
    requires i < |segs|
    ensures var before := if i == 0 then 0 else LayerOf(segs, i - 1);
            var opens := i < |segs| - 1 && segs[i + 1].coords.e > 0.0 && segs[i].coords.z != LayerZBefore(segs, i);
            && (LayerOf(segs, i) == before + 1 <==> opens)
            && (!opens ==> LayerOf(segs, i) == before)
  {
    ScanLayerZ(segs, i);
    if i > 0 {
      assert ScanTo(segs, i).layerIdx == LayerOf(segs, i - 1);
    }
  }

  /** The scan depends only on the coordinates, so a list with the same coordinates scans alike. */
  lemma {:induction false} ScanSameCoords(segs: seq<Segment>, other: seq<Segment>, n: nat)
    requires |segs| == |other| && n <= |segs|
    requires forall i :: 0 <= i < |segs| ==> other[i] == segs[i].(style := other[i].style, layerIdx := other[i].layerIdx)
    ensures ScanTo(other, n) == ScanTo(segs, n)
    decreases n
  {
    if n > 0 {
      ScanSameCoords(segs, other, n - 1);
    }
  }

  /** Classifying an already classified list changes neither the labels nor the layers. */
  lemma ClassifyIdempotent(segs: seq<Segment>)
    ensures Labelled(Labelled(segs)) == Labelled(segs)
    ensures Layers(Labelled(segs)) == Layers(segs)
  {
    var once := Labelled(segs);
    ScanSameCoords(segs, once, |segs|);
    forall i | 0 <= i < |segs| ensures Label(once, i) == Label(segs, i) {
      ScanSameCoords(segs, once, i);
    }
  }
}
