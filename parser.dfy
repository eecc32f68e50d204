/**
 * The classes of parser.py: `GcodeModel`, whose handlers update its fields in
 * place, and `GcodeParser`, which feeds it a file line by line.  Every method
 * is proved to follow the value-level functions of modules Motion,
 * Classifier and Subdivider, where the properties of the core are proved.
 *
 * `GcodeModel` reaches its parser through `self.parser`; here the parser is
 * passed to the methods that read or write it (`ParseLine`, `ParseFile`).
 * The `warn` calls of `GcodeModel` raise, since neither class defines such
 * a method on the model: a handler that fails returns the error instead.
 */
module Parser {
  import opened Wrappers
  import opened Segments
  import PyText
  import PyNumbers
  import Motion
  import Classifier
  import Subdivider

  /** A handler ended as the function `r` says: with its new state, or with its error and nothing changed. */
  predicate Settles(r: Result<Motion.MotionState, Motion.GcodeError>, before: Motion.MotionState,
                    after: Motion.MotionState, err: Option<Motion.GcodeError>)
  {
    match r
    case Success(t) => after == t && err.None?
    case Failure(e) => after == before && err == Some(e)
  }

  class GcodeModel {
    var relative: map<char, real>
    var offset: map<char, real>
    var isRelative: bool
    /** RGB, then the CMYKW mixing weights. */
    var color: seq<real>
    var toolnumber: int
    var segments: seq<Segment>
    var layers: seq<seq<Segment>>

    ghost predicate Valid()
      reads this
    {
      relative.Keys == Motion.Axes && offset.Keys == Motion.OffsetAxes && |color| == Motion.ColorSlots
    }

    /** The fields the handlers read and write, as a value. */
    function State(): Motion.MotionState
      reads this
    {
      Motion.MotionState(relative, offset, isRelative, color, toolnumber, segments)
    }

    constructor ()
      ensures Valid() && State() == Motion.Initial() && layers == []
    {
      relative := map['X' := 0.0, 'Y' := 0.0, 'Z' := 0.0, 'F' := 0.0, 'E' := 0.0];
      offset := map['X' := 0.0, 'Y' := 0.0, 'Z' := 0.0, 'E' := 0.0];
      isRelative := false;
      color := [0.0, 0.0, 0.0, 0.0, 0.0, 0.0, 0.0, 0.0];
      toolnumber := 0;
      segments := [];
      layers := [];
      new;
      assert color == seq(Motion.ColorSlots, _ => 0.0);
    }

    /**
     * The loop of `do_G1` over the argument letters: the target `coords`,
     * or the unknown-axis error it stops at.
     */
    method MoveTarget(args: map<char, real>) returns (coords: map<char, real>, err: Option<Motion.GcodeError>)
      requires Valid()
      ensures err.Some? <==> !(args.Keys <= Motion.Axes)
      ensures err.Some? ==> err.value == Motion.UnknownAxis(args.Keys - Motion.Axes)
      ensures err.None? ==> coords == Motion.Target(State(), args)
    {
      coords := relative;
      var todo := args.Keys;
      ghost var done: set<char> := {};
      while todo != {}
        invariant todo + done == args.Keys && todo !! done && done <= Motion.Axes
        invariant coords.Keys == relative.Keys
        invariant forall a :: a in coords ==>
                    coords[a] == if a in done then (if isRelative then relative[a] + args[a] else args[a]) else relative[a]
        decreases todo
      {
        var axis :| axis in todo;
        if axis !in coords {
          return coords, Some(Motion.UnknownAxis(args.Keys - Motion.Axes));
        }
        coords := coords[axis := if isRelative then coords[axis] + args[axis] else args[axis]];
        todo := todo - {axis};
        done := done + {axis};
      }
      return coords, None;
    }

    /** `do_G1`: the move of `Motion.Move`; an unknown axis is reported before anything changes. */
    method DoG1(args: map<char, real>, kind: MoveKind, lineNb: int, line: string) returns (err: Option<Motion.GcodeError>)
      requires Valid()
      modifies this
      ensures Valid() && layers == old(layers)
      ensures Settles(Motion.Move(old(State()), args, kind, lineNb, line), old(State()), State(), err)
    {
      var coords;
      coords, err := MoveTarget(args);
      if err.Some? {
        return;
      }
      Jump(args, coords, kind, lineNb, line);
    }

    /** The rest of `do_G1` once the target is known: emit the segment if the position changes, then move. */
    method Jump(args: map<char, real>, coords: map<char, real>, kind: MoveKind, lineNb: int, line: string)
      requires Valid() && args.Keys <= Motion.Axes && coords == Motion.Target(State(), args)
      modifies this
      ensures Valid() && layers == old(layers)
      ensures Motion.Move(old(State()), args, kind, lineNb, line) == Success(State())
    {
      ghost var s := State();
      var absolute := Coords(offset['X'] + coords['X'], offset['Y'] + coords['Y'], offset['Z'] + coords['Z'],
                             coords['F'], if 'E' in args then args['E'] else 0.0);
      var seg := NewSegment(kind, absolute, color, toolnumber, lineNb, line);
      assert seg == Motion.MoveSegment(s, args, coords, kind, lineNb, line);
      var moved := seg.coords.x != relative['X'] + offset['X'] || seg.coords.y != relative['Y'] + offset['Y']
                   || seg.coords.z != relative['Z'] + offset['Z'];
      ghost var t := s.(relative := coords, segments := if moved then s.segments + [seg] else s.segments);
      assert Motion.Move(s, args, kind, lineNb, line) == Success(t);
      if moved {
        AddSegment(seg);
      }
      relative := coords;
      assert State() == t;
      assert old(State()) == s;
    }

    /** `do_G0`: the same move as `G1`, recorded with kind `G0`. */
    method DoG0(args: map<char, real>, kind: MoveKind, lineNb: int, line: string) returns (err: Option<Motion.GcodeError>)
      requires Valid()
      modifies this
      ensures Valid() && layers == old(layers)
      ensures Settles(Motion.Move(old(State()), args, kind, lineNb, line), old(State()), State(), err)
    {
      err := DoG1(args, kind, lineNb, line);
    }

    /** `do_G90`: absolute positioning. */
    method DoG90()
      requires Valid()
      modifies this
      ensures Valid() && layers == old(layers)
      ensures State() == old(State()).(isRelative := false)
    {
      isRelative := false;
    }

    /** `do_G91`: relative positioning. */
    method DoG91()
      requires Valid()
      modifies this
      ensures Valid() && layers == old(layers)
      ensures State() == old(State()).(isRelative := true)
    {
      isRelative := true;
    }

    /** `do_G92`: the re-anchoring of `Motion.SetPosition`. */
    method DoG92(args: map<char, real>) returns (err: Option<Motion.GcodeError>)
      requires Valid()
      modifies this
      ensures Valid() && layers == old(layers)
      ensures Settles(Motion.SetPosition(old(State()), args), old(State()), State(), err)
    {
      var given := if |args| == 0 then Motion.Home else args;
      if !(given.Keys <= offset.Keys) {
        return Some(Motion.UnknownAxis(given.Keys - Motion.OffsetAxes));
      }
      offset, relative := Reanchored(offset, relative, given);
      assert State() == Motion.SetPosition(old(State()), args).value;
      return None;
    }

    /**
     * `do_M163`: the mixing weight of `Motion.SetMixWeight`, written into
     * the colour list.  The RGB entries are left alone: the source
     * evaluates the first three characters of the comment and keeps the
     * result only if it is a list or tuple of three, which no three
     * characters of Python can produce.
     */
    method DoM163(args: map<char, real>) returns (err: Option<Motion.GcodeError>)
      requires Valid()
      modifies this
      ensures Valid() && layers == old(layers)
      ensures Settles(Motion.SetMixWeight(old(State()), args), old(State()), State(), err)
    {
      var index := Motion.MixIndex(args);
      var weight := if 'P' in args then args['P'] else 1.0;
      if index < 0 || index >= |color| - 3 {
        return Some(Motion.ExtruderOutOfRange(index));
      }
      color := color[index + 3 := weight];
      return None;
    }

    /** `parseArgs`: one dictionary entry per token, later tokens overriding earlier ones. */
    method ParseArgs(args: string) returns (dic: map<char, real>)
      ensures dic == Motion.DecodeArgs(args)
    {
      dic := map[];
      if args != [] {
        var bits := PyText.Split(args);
        dic := ArgsOf(bits);
      }
    }

    /**
     * The dispatch of `parseLine` on a non-empty code: the `do_<code>`
     * handler when there is one, the `T<n>` tool change, or nothing.
     */
    method Dispatch(code: string, argText: string, lineNb: int, line: string) returns (err: Option<Motion.GcodeError>)
      requires Valid() && code != []
      modifies this
      ensures Valid() && layers == old(layers)
      ensures Settles(Motion.Dispatch(old(State()), code, argText, lineNb, line), old(State()), State(), err)
    {
      err := None;
      if code == "G0" {
        var args := ParseArgs(argText);
        err := DoG0(args, G0, lineNb, line);
      } else if code == "G1" {
        var args := ParseArgs(argText);
        err := DoG1(args, G1, lineNb, line);
      } else if code == "G90" {
        DoG90();
      } else if code == "G91" {
        DoG91();
      } else if code == "G92" {
        var args := ParseArgs(argText);
        err := DoG92(args);
      } else if code == "M163" {
        var args := ParseArgs(argText);
        err := DoM163(args);
      } else if code[0] == 'T' {
        match PyNumbers.ParseInt(code[1..])
        case Some(n) => toolnumber := n;
        case None => err := Some(Motion.InvalidToolNumber(code));
      }
    }

    /** `parseLine`: interpret the parser's current line as `Motion.LineStep` does. */
    method ParseLine(parser: GcodeParser) returns (err: Option<Motion.GcodeError>)
      requires Valid()
      modifies this, parser`comment
      ensures Valid() && layers == old(layers)
      ensures parser.line == old(parser.line) && parser.lineNb == old(parser.lineNb)
      ensures var o := Motion.LineStep(old(State()), old(parser.comment), old(parser.line), old(parser.lineNb));
              State() == o.state && parser.comment == o.comment && err == o.error
    {
      ghost var s0 := State();
      var bits := PyText.SplitOnce(parser.line, ';');
      if |bits| > 1 {
        parser.comment := bits[1];
      }
      assert State() == s0;
      var command := PyText.Strip(bits[0]);
      var comm := PyText.SplitFirst(command);
      err := None;
      if |comm| > 0 {
        var code := comm[0];
        var argText := if |comm| > 1 then comm[1] else "";
        err := Dispatch(code, argText, parser.lineNb, parser.line);
      }
    }

    /** One iteration of `parseFile`: count the line, keep it without trailing whitespace, interpret it. */
    method FeedLine(parser: GcodeParser, raw: string) returns (err: Option<Motion.GcodeError>)
      requires Valid()
      modifies this, parser`lineNb, parser`line, parser`comment
      ensures Valid() && layers == old(layers)
      ensures parser.lineNb == old(parser.lineNb) + 1 && parser.line == PyText.RStrip(raw)
      ensures var o := Motion.LineStep(old(State()), old(parser.comment), parser.line, parser.lineNb);
              State() == o.state && parser.comment == o.comment && err == o.error
    {
      parser.lineNb := parser.lineNb + 1;
      parser.line := PyText.RStrip(raw);
      err := ParseLine(parser);
    }

    /** `parseFile` over the lines of a file: what `Motion.Run` computes. */
    method ParseFile(parser: GcodeParser, lines: seq<string>) returns (failure: Option<Motion.ParseFailure>)
      requires Valid()
      modifies this, parser`lineNb, parser`line, parser`comment
      ensures Valid() && layers == old(layers)
      ensures var r := Motion.Run(old(State()), old(parser.lineNb), old(parser.line), old(parser.comment), lines);
              && State() == r.state && parser.lineNb == r.lineNb && parser.line == r.line
              && parser.comment == r.comment && failure == r.failure
    {
      var i := 0;
      while i < |lines|
        invariant 0 <= i <= |lines| && Valid() && layers == old(layers)
        invariant Motion.Run(old(State()), old(parser.lineNb), old(parser.line), old(parser.comment), lines)
               == Motion.Run(State(), parser.lineNb, parser.line, parser.comment, lines[i..])
      {
        assert lines[i..][0] == lines[i] && lines[i..][1..] == lines[i + 1..];
        ghost var s, nb, line, comment := State(), parser.lineNb, parser.line, parser.comment;
        var err := FeedLine(parser, lines[i]);
        ghost var o := Motion.LineStep(s, comment, parser.line, parser.lineNb);
        if err.Some? {
          assert Motion.Run(s, nb, line, comment, lines[i..])
              == Motion.RunOutcome(o.state, parser.lineNb, parser.line, o.comment,
                                   Some(Motion.ParseFailure(parser.lineNb, parser.line, err.value)));
          return Some(Motion.ParseFailure(parser.lineNb, parser.line, err.value));
        }
        assert Motion.Run(s, nb, line, comment, lines[i..])
            == Motion.Run(o.state, parser.lineNb, parser.line, o.comment, lines[i + 1..]);
        i := i + 1;
      }
      return None;
    }

    /** `addSegment`: append one segment. */
    method AddSegment(segment: Segment)
      modifies this
      ensures State() == old(State()).(segments := old(segments) + [segment])
      ensures layers == old(layers)
    {
      segments := segments + [segment];
    }

    /**
     * `classifySegments`: label every segment and append the layers they
     * fall into to `layers`, as `Classifier.Labelled` and `Classifier.Layers`
     * describe.  What was in `layers` before stays in front.
     */
    method ClassifySegments()
      requires Valid()
      modifies this
      ensures Valid()
      ensures segments == Classifier.Labelled(old(segments))
      ensures layers == old(layers) + Classifier.Layers(old(segments))
      ensures relative == old(relative) && offset == old(offset) && isRelative == old(isRelative)
      ensures color == old(color) && toolnumber == old(toolnumber)
    {
      var segs := segments;
      var labelled := segs;
      var closed: seq<seq<Segment>> := [];
      var coords := Origin;
      var currentLayerIdx := 0;
      var currentLayerZ := 0.0;
      var layer: seq<Segment> := [];
      var i := 0;
      while i < |segs|
        invariant 0 <= i <= |segs| == |labelled|
        invariant forall k :: 0 <= k < i ==> labelled[k] == Classifier.Label(segs, k)
        invariant forall k :: i <= k < |segs| ==> labelled[k] == segs[k]
        invariant Classifier.ScanTo(segs, i) == Classifier.Scan(coords, currentLayerIdx, currentLayerZ, layer, closed)
      {
        ghost var sc := Classifier.Scan(coords, currentLayerIdx, currentLayerZ, layer, closed);
        var seg := labelled[i];
        var style := Travel;
        if (seg.coords.x != coords.x || seg.coords.y != coords.y || seg.coords.z != coords.z) && seg.coords.e > 0.0 {
          style := Extrude;
        }
        assert style == Classifier.StyleOf(sc.prev, segs[i].coords);
        if i < |segs| - 1 {
          var next := labelled[i + 1];
          if seg.coords.z != currentLayerZ && next.coords.e > 0.0 {
            closed := closed + [layer];
            layer := [];
            currentLayerZ := seg.coords.z;
            currentLayerIdx := currentLayerIdx + 1;
          }
        }
        assert Classifier.Boundary(segs, i, sc) == Classifier.Scan(coords, currentLayerIdx, currentLayerZ, layer, closed);
        seg := seg.(style := style, layerIdx := Some(currentLayerIdx));
        assert seg == Classifier.LabelWith(segs, i, sc);
        labelled := labelled[i := seg];
        layer := layer + [seg];
        coords := seg.coords;
        i := i + 1;
      }
      if layer != [] {
        closed := closed + [layer];
      }
      assert labelled == Classifier.Labelled(segs);
      segments := labelled;
      layers := layers + closed;
    }

    /**
     * `subdivide_segments(subd_threshold)`: replace the segment list by the
     * one `Subdivider.Subdivide` describes.  The threshold is positive: the
     * add-on's setting for it has a minimum of 0.1.
     */
    method SubdivideSegments(threshold: real)
      requires Valid() && threshold > 0.0
      modifies this
      ensures Valid()
      ensures segments == Subdivider.Subdivide(old(segments), threshold)
      ensures relative == old(relative) && offset == old(offset) && isRelative == old(isRelative)
      ensures color == old(color) && toolnumber == old(toolnumber) && layers == old(layers)
    {
      segments := Subdivided(segments, threshold);
    }
  }

  /**
   * The loop of `do_G92`: each given axis moves the offset by the distance
   * the relative position jumps, and the relative position takes the given value.
   */
  method Reanchored(offset: map<char, real>, relative: map<char, real>, given: map<char, real>)
      returns (off: map<char, real>, rel: map<char, real>)
    requires given.Keys <= offset.Keys && given.Keys <= relative.Keys
    ensures off == map a | a in offset :: if a in given then offset[a] + (relative[a] - given[a]) else offset[a]
    ensures rel == map a | a in relative :: if a in given then given[a] else relative[a]
  {
    off, rel := offset, relative;
    var todo := given.Keys;
    ghost var done: set<char> := {};
    while todo != {}
      invariant todo + done == given.Keys && todo !! done
      invariant off.Keys == offset.Keys && rel.Keys == relative.Keys
      invariant forall a :: a in off ==> off[a] == if a in done then offset[a] + (relative[a] - given[a]) else offset[a]
      invariant forall a :: a in rel ==> rel[a] == if a in done then given[a] else relative[a]
      decreases todo
    {
      var axis :| axis in todo;
      off := off[axis := off[axis] + (rel[axis] - given[axis])];
      rel := rel[axis := given[axis]];
      todo := todo - {axis};
      done := done + {axis};
    }
    assert done == given.Keys;
    ghost var newOffset := map a | a in offset :: if a in given then offset[a] + (relative[a] - given[a]) else offset[a];
    ghost var newRelative := map a | a in relative :: if a in given then given[a] else relative[a];
    assert off.Keys == newOffset.Keys && forall a :: a in off ==> off[a] == newOffset[a];
    assert rel.Keys == newRelative.Keys && forall a :: a in rel ==> rel[a] == newRelative[a];
  }

  /** The loop of `parseArgs`: each token's letter mapped to its value, a later token overriding an earlier one. */
  method ArgsOf(bits: seq<string>) returns (dic: map<char, real>)
    requires Motion.AllNonEmpty(bits)
    ensures dic == Motion.MapOf(Motion.Letters(bits), Motion.Values(bits), |bits|)
  {
    ghost var keys, values := Motion.Letters(bits), Motion.Values(bits);
    dic := map[];
    var i := 0;
    while i < |bits|
      invariant 0 <= i <= |bits|
      invariant dic == Motion.MapOf(keys, values, i)
    {
      var bit := bits[i];
      var letter := bit[0];
      var coord := Motion.ArgValue(bit);
      assert keys[i] == letter && values[i] == coord;
      dic := dic[letter := coord];
      i := i + 1;
    }
  }

  /** The loop of `subdivide_segments`: the new segment list, built from the old one. */
  method Subdivided(segs: seq<Segment>, threshold: real) returns (subdivided: seq<Segment>)
    requires threshold > 0.0
    ensures subdivided == Subdivider.Subdivide(segs, threshold)
  {
    subdivided := [];
    var coords := Origin;
    var j := 0;
    while j < |segs|
      invariant 0 <= j <= |segs|
      invariant coords == Prev(segs, j)
      invariant subdivided == Subdivider.SubdivideTo(segs, threshold, j)
    {
      var seg := segs[j];
      ghost var piece := Subdivider.Piece(coords, seg, threshold);
      assert Subdivider.SubdivideTo(segs, threshold, j + 1) == subdivided + piece;
      var d2 := Subdivider.DistSq(coords, seg.coords);
      if d2 > threshold * threshold {
        var subdivs := Subdivider.SubdivCount(d2, threshold);
        var pieces := Cut(coords, seg, subdivs);
        assert pieces == piece;
        subdivided := subdivided + pieces;
      } else {
        subdivided := subdivided + [seg.(distanceSq := Some(d2))];
      }
      coords := seg.coords;
      j := j + 1;
    }
  }

  /**
   * The inner loop of `subdivide_segments`: the sub-segments of a long move
   * from `cursor`, one per sample, skipping those that do not move.
   */
  method Cut(cursor: Coords, seg: Segment, subdivs: nat) returns (pieces: seq<Segment>)
    requires subdivs >= 2
    ensures pieces == Subdivider.Samples(cursor, seg, subdivs, subdivs)
  {
    pieces := [];
    var i := 0;
    while i < subdivs
      invariant 0 <= i <= subdivs
      invariant pieces == Subdivider.Samples(cursor, seg, subdivs, i)
    {
      var p := Subdivider.SamplePoint(cursor, seg.coords, subdivs, i);
      var e := if seg.coords.e > 0.0 then PyNumbers.Round5(seg.coords.e / (subdivs - 1) as real) else 0.0;
      var newCoords := Coords(p.x, p.y, p.z, seg.coords.f, e);
      if newCoords.x != cursor.x || newCoords.y != cursor.y || newCoords.z != cursor.z {
        var newSeg := NewSegment(seg.kind, newCoords, seg.color, seg.toolnumber, seg.lineNb, seg.line)
          .(layerIdx := seg.layerIdx, style := seg.style);
        assert newSeg == Subdivider.SubSegment(cursor, seg, subdivs, i);
        pieces := pieces + [newSeg];
      }
      i := i + 1;
    }
  }

  class GcodeParser {
    const model: GcodeModel
    var lineNb: int
    var line: string
    /** The last comment seen; a line without `;` keeps it. */
    var comment: string

    /** `GcodeParser()`: a fresh model, no line read yet, no comment. */
    constructor ()
      ensures fresh(model) && model.Valid()
      ensures model.State() == Motion.Initial() && model.layers == []
      ensures lineNb == 0 && line == "" && comment == ""
    {
      model := new GcodeModel();
      lineNb := 0;
      line := "";
      comment := "";
    }

    /**
     * `parseFile`: its own loop in the source does line by line what the
     * loop of `GcodeModel.parseFile` does, so here it calls that method;
     * returns the model.
     */
    method ParseFile(lines: seq<string>) returns (m: GcodeModel, failure: Option<Motion.ParseFailure>)
      requires model.Valid()
      modifies this, model
      ensures m == model && model.Valid() && model.layers == old(model.layers)
      ensures var r := Motion.Run(old(model.State()), old(lineNb), old(line), old(comment), lines);
              && model.State() == r.state && lineNb == r.lineNb && line == r.line
              && comment == r.comment && failure == r.failure
    {
      failure := model.ParseFile(this, lines);
      m := model;
    }
  }
}
