/** The `Segment` record of parser.py: one interpreted G0/G1 move. */
module Segments {
  import opened Wrappers

  /** `Segment.type`: the command the move came from. */
  datatype MoveKind = G0 | G1

  /** `Segment.style`: `None` until the classifier labels the move. */
  datatype Style = Unclassified | Travel | Extrude

  /** `Segment.coords`: the X, Y, Z, F and E entries of the coordinate dictionary. */
  datatype Coords = Coords(x: real, y: real, z: real, f: real, e: real)

  /** A point in space: the X, Y and Z of a coordinate dictionary. */
  datatype Point = Point(x: real, y: real, z: real)

  /** The all-zero dictionary that the classifier and the subdivider start their cursor at. */
  const Origin: Coords := Coords(0.0, 0.0, 0.0, 0.0, 0.0)

  function PointOf(c: Coords): Point {
    Point(c.x, c.y, c.z)
  }

  /** No X, Y or Z difference: the test both passes use to tell a move from a standstill. */
  predicate SamePosition(a: Coords, b: Coords) {
    PointOf(a) == PointOf(b)
  }

  /**
   * A segment: its kind and coordinates, the colour vector and tool active when
   * it was made, the line it came from, and the classification fields
   * (`style`, `layerIdx`) and the squared `distance` the later passes fill in.
   */
  datatype Segment = Segment(
    kind: MoveKind,
    coords: Coords,
    color: seq<real>,
    toolnumber: int,
    lineNb: int,
    line: string,
    style: Style,
    layerIdx: Option<int>,
    distanceSq: Option<real>)

  /** `Segment(type, coords, color, toolnumber, lineNb, line)`: style, layer and distance still unset. */
  function NewSegment(kind: MoveKind, coords: Coords, color: seq<real>, toolnumber: int, lineNb: int, line: string): Segment {
    Segment(kind, coords, color, toolnumber, lineNb, line, Unclassified, None, None)
  }

  /**
   * The cursor both passes compare segment `i` with: the previous segment's
   * coordinates, the all-zero dictionary before the first.
   */
  function Prev(segs: seq<Segment>, i: nat): Coords
    requires i <= |segs|
  {
    if i == 0 then Origin else segs[i - 1].coords
  }
}
