/**
 * Worked examples: what `Motion.Run` computes on short G-code programs from
 * the initial state, and what the classifier and the subdivider make of
 * small segment lists.
 */
module Scenarios {
  import opened Wrappers
  import opened Segments
  import PyText
  import PyNumbers
  import Motion
  import Subdivider
  import Classifier

  lemma ArgsX5()
    ensures Motion.DecodeArgs("X5") == map['X' := 5.0]
  {
    assert PyText.NoSpace("X5");
    PyText.SplitJoinRoundTrip(["X5"]);
    assert "X5" == ['X'] + PyNumbers.IntToString(5);
    Motion.ArgValueOfInt('X', 5);
  }

  lemma ArgsX5E1()
    ensures Motion.DecodeArgs("X5 E1") == map['X' := 5.0, 'E' := 1.0]
  {
    assert PyText.NoSpace("X5") && PyText.NoSpace("E1");
    PyText.SplitJoinRoundTrip(["X5", "E1"]);
    assert PyText.JoinWords(["X5", "E1"]) == "X5 E1";
    assert "X5" == ['X'] + PyNumbers.IntToString(5);
    assert "E1" == ['E'] + PyNumbers.IntToString(1);
    Motion.ArgValueOfInt('X', 5);
    Motion.ArgValueOfInt('E', 1);
  }

  lemma DispatchG92(s: Motion.MotionState, line: string)
    requires Motion.WellFormed(s)
    ensures Motion.Dispatch(s, "G92", "X5", 1, line) == Motion.SetPosition(s, map['X' := 5.0])
  {
    ArgsX5();
  }

  lemma LineG92(s: Motion.MotionState)
    requires Motion.WellFormed(s)
    ensures var r := Motion.LineStep(s, "", "G92 X5", 1);
            var m := Motion.SetPosition(s, map['X' := 5.0]);
            m.Success? ==> r.error.None? && r.comment == "" && r.state == m.value
  {
    assert "G92 X5" == "G92" + " " + "X5";
    Motion.CommentFreeLineStep(s, "", "G92", "X5", 1);
    DispatchG92(s, "G92 X5");
  }

  lemma DispatchG1(s: Motion.MotionState, lineNb: int, line: string)
    requires Motion.WellFormed(s)
    ensures Motion.Dispatch(s, "G1", "X5 E1", lineNb, line) == Motion.Move(s, map['X' := 5.0, 'E' := 1.0], G1, lineNb, line)
  {
    ArgsX5E1();
  }

  lemma LineG1(s: Motion.MotionState, lineNb: int)
    requires Motion.WellFormed(s)
    ensures var r := Motion.LineStep(s, "", "G1 X5 E1", lineNb);
            var m := Motion.Move(s, map['X' := 5.0, 'E' := 1.0], G1, lineNb, "G1 X5 E1");
            m.Success? ==> r.error.None? && r.comment == "" && r.state == m.value
  {
    assert "G1 X5 E1" == "G1" + " " + "X5 E1";
    Motion.CommentFreeLineStep(s, "", "G1", "X5 E1", lineNb);
    DispatchG1(s, lineNb, "G1 X5 E1");
  }

  /** In absolute mode, re-anchoring X at `v` and then moving to X `v` stays put and emits no segment. */
  lemma SameTargetAfterReanchor(s: Motion.MotionState, v: real, e: real, kind: MoveKind, lineNb: int, line: string)
    requires Motion.WellFormed(s) && !s.isRelative
    ensures var s1 := Motion.SetPosition(s, map['X' := v]).value;
            var s2 := Motion.Move(s1, map['X' := v, 'E' := e], kind, lineNb, line).value;
            && s2.segments == s.segments && s2.relative['X'] == v && s2.offset['X'] == s.offset['X'] + s.relative['X'] - v
  {
    var args1 := map['X' := v];
    Motion.SetPositionEffect(s, args1);
    var s1 := Motion.SetPosition(s, args1).value;
    var args2 := map['X' := v, 'E' := e];
    Motion.MoveEffect(s1, args2, kind, lineNb, line);
    var s2 := Motion.Move(s1, args2, kind, lineNb, line).value;
    assert s2.relative['X'] == v && s2.offset == s1.offset;
    assert s2.relative['Y'] == s1.relative['Y'] && s2.relative['Z'] == s1.relative['Z'];
    assert Motion.Position(s2) == Motion.Position(s1);
  }

  lemma FirstLine(s0: Motion.MotionState, lines: seq<string>)
    requires Motion.WellFormed(s0) && lines != [] && lines[0] == "G92 X5"
    ensures Motion.Run(s0, 0, "", "", lines)
         == Motion.Run(Motion.SetPosition(s0, map['X' := 5.0]).value, 1, "G92 X5", "", lines[1..])
  {
    PyText.RStripUnpadded(lines[0]);
    LineG92(s0);
  }

  lemma SecondLine(s1: Motion.MotionState, n: int, line: string, lines: seq<string>)
    requires Motion.WellFormed(s1) && |lines| == 1 && lines[0] == "G1 X5 E1"
    ensures var m := Motion.Move(s1, map['X' := 5.0, 'E' := 1.0], G1, n + 1, "G1 X5 E1");
            m.Success? && Motion.Run(s1, n, line, "", lines) == Motion.RunOutcome(m.value, n + 1, "G1 X5 E1", "", None)
  {
    var text := lines[0];
    assert PyText.RStrip(text) == text by { PyText.RStripUnpadded(text); }
    var o := Motion.LineStep(s1, "", text, n + 1);
    var m := Motion.Move(s1, map['X' := 5.0, 'E' := 1.0], G1, n + 1, text);
    assert m.Success?;
    assert o.error.None? && o.comment == "" && o.state == m.value by { LineG1(s1, n + 1); }
    assert lines[1..] == [];
    assert Motion.Run(s1, n, line, "", lines) == Motion.Run(o.state, n + 1, text, o.comment, lines[1..]);
  }

  /**
   * `G92 X5` then `G1 X5 E1` from the initial state: the first re-anchors X
   * at 5 (offset -5), so the second targets the position the head already
   * has and emits no segment.
   */
  lemma ReanchorThenSameTarget()
    ensures var r := Motion.Run(Motion.Initial(), 0, "", "", ["G92 X5", "G1 X5 E1"]);
            && r.failure.None? && r.lineNb == 2 && r.line == "G1 X5 E1"
            && r.state.segments == [] && r.state.relative['X'] == 5.0 && r.state.offset['X'] == -5.0
  {
    var s0 := Motion.Initial();
    assert s0.offset['X'] == 0.0 && s0.relative['X'] == 0.0;
    var lines := ["G92 X5", "G1 X5 E1"];
    FirstLine(s0, lines);
    var s1 := Motion.SetPosition(s0, map['X' := 5.0]).value;
    SameTargetAfterReanchor(s0, 5.0, 1.0, G1, 2, "G1 X5 E1");
    SecondLine(s1, 1, "G92 X5", lines[1..]);
  }

  /** A move of length 10 against the threshold 3 takes `ceil(10 / 3) = 4` samples. */
  lemma TenByThreeCount()
    ensures Subdivider.SubdivCount(100.0, 3.0) == 4
  {
  }

  /**
   * A move from the origin to X 10 with threshold 3 becomes three segments
   * at X 10/3, 20/3 and 10, each with E `round(E / 3, 5)`.
   */
  lemma TenByThree(seg: Segment)
    requires seg.coords.x == 10.0 && seg.coords.y == 0.0 && seg.coords.z == 0.0
    ensures var p := Subdivider.Piece(Origin, seg, 3.0);
            && |p| == 3
            && p[0].coords.x == 10.0 / 3.0 && p[1].coords.x == 20.0 / 3.0 && p[2].coords.x == 10.0
            && forall j :: 0 <= j < 3 ==>
                 p[j].coords.y == 0.0 && p[j].coords.z == 0.0 && p[j].coords.e == Subdivider.EShare(seg.coords.e, 4)
  {
    assert Subdivider.DistSq(Origin, seg.coords) == 100.0;
    TenByThreeCount();
    Subdivider.LongSegmentPieces(Origin, seg, 3.0);
  }

  lemma SplitFour(a: string, b: string, c: string, d: string)
    requires a != [] && b != [] && c != [] && d != []
    requires PyText.NoSpace(a) && PyText.NoSpace(b) && PyText.NoSpace(c) && PyText.NoSpace(d)
    ensures PyText.Split(a + " " + (b + " " + (c + " " + d))) == [a, b, c, d]
  {
    PyText.SplitWord(d);
    PyText.SplitCons(c, d);
    PyText.SplitCons(b, c + " " + d);
    PyText.SplitCons(a, b + " " + (c + " " + d));
  }

  lemma SplitXYZE(xTok: string)
    requires xTok != [] && PyText.NoSpace(xTok)
    ensures PyText.Split(xTok + " " + "Y0 Z0 E1") == [xTok, "Y0", "Z0", "E1"]
  {
    assert PyText.NoSpace("Y0") && PyText.NoSpace("Z0") && PyText.NoSpace("E1");
    assert "Y0 Z0 E1" == "Y0" + " " + ("Z0" + " " + "E1");
    SplitFour(xTok, "Y0", "Z0", "E1");
  }

  /** The arguments `X<x> Y0 Z0 E1`. */
  lemma ArgsXYZE(xTok: string, x: int)
    requires xTok == ['X'] + PyNumbers.IntToString(x) && PyText.NoSpace(xTok)
    ensures Motion.DecodeArgs(xTok + " " + "Y0 Z0 E1") == map['X' := x as real, 'Y' := 0.0, 'Z' := 0.0, 'E' := 1.0]
  {
    var toks := [xTok, "Y0", "Z0", "E1"];
    SplitXYZE(xTok);
    ValuesXYZE(xTok, x);
  }

  /** Four argument tokens for X, Y, Z and E, in that order, build the dictionary of their values. */
  lemma FourArgs(a: string, b: string, c: string, d: string, va: real, vb: real, vc: real, vd: real)
    requires a != [] && b != [] && c != [] && d != []
    requires a[0] == 'X' && b[0] == 'Y' && c[0] == 'Z' && d[0] == 'E'
    requires Motion.ArgValue(a) == va && Motion.ArgValue(b) == vb && Motion.ArgValue(c) == vc && Motion.ArgValue(d) == vd
    ensures Motion.MapOf(Motion.Letters([a, b, c, d]), Motion.Values([a, b, c, d]), 4)
         == map['X' := va, 'Y' := vb, 'Z' := vc, 'E' := vd]
  {
    var toks := [a, b, c, d];
    var keys, values := Motion.Letters(toks), Motion.Values(toks);
    assert keys[0] == 'X' && keys[1] == 'Y' && keys[2] == 'Z' && keys[3] == 'E';
    assert values[0] == va && values[1] == vb && values[2] == vc && values[3] == vd;
    MapOfFour(keys, values);
  }

  lemma MapOfFour(keys: seq<char>, values: seq<real>)
    requires |keys| == |values| == 4
    requires keys[0] == 'X' && keys[1] == 'Y' && keys[2] == 'Z' && keys[3] == 'E'
    ensures Motion.MapOf(keys, values, 4) == map['X' := values[0], 'Y' := values[1], 'Z' := values[2], 'E' := values[3]]
  {
    assert Motion.MapOf(keys, values, 1) == map['X' := values[0]];
    assert Motion.MapOf(keys, values, 2) == map['X' := values[0], 'Y' := values[1]];
    assert Motion.MapOf(keys, values, 3) == map['X' := values[0], 'Y' := values[1], 'Z' := values[2]];
  }

  lemma ValuesXYZE(xTok: string, x: int)
    requires xTok == ['X'] + PyNumbers.IntToString(x)
    ensures Motion.MapOf(Motion.Letters([xTok, "Y0", "Z0", "E1"]), Motion.Values([xTok, "Y0", "Z0", "E1"]), 4)
         == map['X' := x as real, 'Y' := 0.0, 'Z' := 0.0, 'E' := 1.0]
  {
    assert "Y0" == ['Y'] + PyNumbers.IntToString(0);
    assert "Z0" == ['Z'] + PyNumbers.IntToString(0);
    assert "E1" == ['E'] + PyNumbers.IntToString(1);
    Motion.ArgValueOfInt('X', x);
    Motion.ArgValueOfInt('Y', 0);
    Motion.ArgValueOfInt('Z', 0);
    Motion.ArgValueOfInt('E', 1);
    FourArgs(xTok, "Y0", "Z0", "E1", x as real, 0.0, 0.0, 1.0);
  }


  /** The line `G1 X<x> Y0 Z0 E1` moves to X `x`, Y and Z 0, with E 1. */
  lemma LineXYZE(s: Motion.MotionState, xTok: string, x: int, lineNb: int)
    requires Motion.WellFormed(s)
    requires xTok == ['X'] + PyNumbers.IntToString(x) && PyText.NoSpace(xTok)
    ensures var line := "G1" + " " + (xTok + " " + "Y0 Z0 E1");
            var m := Motion.Move(s, XArgs(x as real), G1, lineNb, line);
            var r := Motion.LineStep(s, "", line, lineNb);
            r.comment == "" && (m.Success? ==> r.error.None? && r.state == m.value)
  {
    var args := xTok + " " + "Y0 Z0 E1";
    var line := "G1" + " " + args;
    assert args[0] == 'X' && args[|args| - 1] == '1';
    assert ';' !in "G1" + " " + args by {
      NoSemicolon(x);
      assert ';' !in xTok;
    }
    assert Motion.Dispatch(s, "G1", args, lineNb, line) == Motion.Move(s, XArgs(x as real), G1, lineNb, line) by {
      ArgsXYZE(xTok, x);
    }
    Motion.CommentFreeLineStep(s, "", "G1", args, lineNb);
  }

  lemma NoSemicolon(x: int)
    ensures ';' !in PyNumbers.IntToString(x)
  {
    var m := if x < 0 then -x else x;
    PyNumbers.NatToStringSpells(m);
    var digits := PyNumbers.NatToString(m);
    assert forall i :: 0 <= i < |digits| ==> digits[i] != ';';
    assert PyNumbers.IntToString(x) == (if x < 0 then "-" else "") + digits;
  }

  /** The arguments of `G1 X<x> Y0 Z0 E1`. */
  function XArgs(x: real): map<char, real> {
    map['X' := x, 'Y' := 0.0, 'Z' := 0.0, 'E' := 1.0]
  }

  /**
   * The driver over a first line `G1 X<x> Y0 Z0 E1`, in absolute mode with no
   * offsets and away from (x, 0, 0): the move emits the segment to (x, 0, 0)
   * with E 1, and the rest of the file runs from there.
   */
  lemma MoveLine(s: Motion.MotionState, lineNb: int, line: string, lines: seq<string>, xTok: string, x: int)
    requires Motion.WellFormed(s) && !s.isRelative && Motion.Position(s) != Point(x as real, 0.0, 0.0)
    requires s.offset['X'] == 0.0 && s.offset['Y'] == 0.0 && s.offset['Z'] == 0.0
    requires xTok == ['X'] + PyNumbers.IntToString(x) && PyText.NoSpace(xTok)
    requires lines != [] && lines[0] == "G1" + " " + (xTok + " " + "Y0 Z0 E1")
    ensures var m := Motion.Move(s, XArgs(x as real), G1, lineNb + 1, lines[0]);
            && m.Success? && Motion.Run(s, lineNb, line, "", lines) == Motion.Run(m.value, lineNb + 1, lines[0], "", lines[1..])
            && var t := m.value;
               && !t.isRelative && t.offset == s.offset && Motion.Position(t) == Point(x as real, 0.0, 0.0)
               && |t.segments| == |s.segments| + 1 && t.segments[..|s.segments|] == s.segments
               && PointOf(t.segments[|s.segments|].coords) == Point(x as real, 0.0, 0.0)
               && t.segments[|s.segments|].coords.e == 1.0
  {
    assert lines[0][|lines[0]| - 1] == '1';
    PyText.RStripUnpadded(lines[0]);
    LineXYZE(s, xTok, x, lineNb + 1);
    Motion.MoveEffect(s, XArgs(x as real), G1, lineNb + 1, lines[0]);
  }

  /** Two moves that change position with positive E, neither at a new height: both extrude, both in layer 0. */
  lemma FlatExtrusions(segs: seq<Segment>)
    requires |segs| == 2 && segs[0].coords.e > 0.0 && segs[1].coords.e > 0.0
    requires segs[0].coords.z == 0.0 && !SamePosition(Origin, segs[0].coords) && !SamePosition(segs[0].coords, segs[1].coords)
    ensures forall k :: 0 <= k < 2 ==> Classifier.Label(segs, k).style == Extrude && Classifier.LayerOf(segs, k) == 0
  {
    assert !Classifier.OpensLayer(segs, 0, 0.0);
    assert Classifier.ScanTo(segs, 0) == Classifier.Start;
    assert Classifier.LayerOf(segs, 0) == 0;
    Classifier.LayerIndexSteps(segs, 1);
  }

  /**
   * A layer change: an extrusion at height 0, a travel up to height `h`, and
   * an extrusion at `h`.  The travel opens layer 1, because the move after it
   * extrudes, so the layers are the first segment, then the other two.
   */
  lemma LayerChange(segs: seq<Segment>, h: real)
    requires |segs| == 3 && h != 0.0
    requires segs[0].coords.z == 0.0 && segs[0].coords.e > 0.0 && !SamePosition(Origin, segs[0].coords)
    requires segs[1].coords.z == h && segs[1].coords.e == 0.0
    requires segs[2].coords.z == h && segs[2].coords.e > 0.0 && !SamePosition(segs[1].coords, segs[2].coords)
    ensures var lab := Classifier.Labelled(segs);
            && lab[0].style == Extrude && lab[1].style == Travel && lab[2].style == Extrude
            && lab[0].layerIdx == Some(0) && lab[1].layerIdx == Some(1) && lab[2].layerIdx == Some(1)
            && Classifier.Layers(segs) == [[lab[0]], [lab[1], lab[2]]]
  {
    var lab := Classifier.Labelled(segs);
    var s0 := Classifier.ScanTo(segs, 0);
    assert !Classifier.OpensLayer(segs, 0, s0.layerZ);
    var s1 := Classifier.ScanTo(segs, 1);
    assert s1.layerZ == 0.0 && s1.layerIdx == 0 && s1.closed == [] && s1.layer == [lab[0]];
    assert Classifier.OpensLayer(segs, 1, s1.layerZ);
    var s2 := Classifier.ScanTo(segs, 2);
    assert s2.layerZ == h && s2.layerIdx == 1 && s2.closed == [[lab[0]]] && s2.layer == [lab[1]];
    assert !Classifier.OpensLayer(segs, 2, s2.layerZ);
    var s3 := Classifier.ScanTo(segs, 3);
    assert s3.closed == [[lab[0]]] && s3.layer == [lab[1], lab[2]];
  }

  /** The last line `G1 X<x> Y0 Z0 E1` of a file, after one segment away from (x, 0, 0). */
  lemma LastMove(s1: Motion.MotionState, n: int, line: string, rest: seq<string>, tok: string, x: int)
    requires Motion.WellFormed(s1) && !s1.isRelative && Motion.Position(s1) != Point(x as real, 0.0, 0.0)
    requires s1.offset['X'] == 0.0 && s1.offset['Y'] == 0.0 && s1.offset['Z'] == 0.0
    requires tok == ['X'] + PyNumbers.IntToString(x) && PyText.NoSpace(tok)
    requires |rest| == 1 && rest[0] == "G1" + " " + (tok + " " + "Y0 Z0 E1")
    requires |s1.segments| == 1
    ensures var r := Motion.Run(s1, n, line, "", rest);
            && r.failure.None? && |r.state.segments| == 2 && r.state.segments[0] == s1.segments[0]
            && PointOf(r.state.segments[1].coords) == Point(x as real, 0.0, 0.0) && r.state.segments[1].coords.e == 1.0
  {
    MoveLine(s1, n, line, rest, tok, x);
    var s2 := Motion.Move(s1, XArgs(x as real), G1, n + 1, rest[0]).value;
    assert rest[1..] == [];
    assert s2.segments[..1] == s1.segments;
    assert s2.segments[0] == s2.segments[..1][0];
  }

  /** The two lines `G1 X<x1> Y0 Z0 E1` and `G1 X<x2> Y0 Z0 E1` from an absolute state at the origin with no offsets. */
  lemma TwoMoves(s0: Motion.MotionState, n: int, line: string, lines: seq<string>, tok1: string, x1: int, tok2: string, x2: int)
    requires Motion.WellFormed(s0) && !s0.isRelative && s0.segments == [] && Motion.Position(s0) == Point(0.0, 0.0, 0.0)
    requires s0.offset['X'] == 0.0 && s0.offset['Y'] == 0.0 && s0.offset['Z'] == 0.0
    requires x1 != 0 && x2 != x1
    requires tok1 == ['X'] + PyNumbers.IntToString(x1) && PyText.NoSpace(tok1)
    requires tok2 == ['X'] + PyNumbers.IntToString(x2) && PyText.NoSpace(tok2)
    requires |lines| == 2
    requires lines[0] == "G1" + " " + (tok1 + " " + "Y0 Z0 E1") && lines[1] == "G1" + " " + (tok2 + " " + "Y0 Z0 E1")
    ensures var r := Motion.Run(s0, n, line, "", lines);
            && r.failure.None? && |r.state.segments| == 2
            && PointOf(r.state.segments[0].coords) == Point(x1 as real, 0.0, 0.0)
            && PointOf(r.state.segments[1].coords) == Point(x2 as real, 0.0, 0.0)
            && r.state.segments[0].coords.e == 1.0 && r.state.segments[1].coords.e == 1.0
  {
    MoveLine(s0, n, line, lines, tok1, x1);
    var s1 := Motion.Move(s0, XArgs(x1 as real), G1, n + 1, lines[0]).value;
    var rest := lines[1..];
    assert rest[0] == lines[1];
    LastMove(s1, n + 1, lines[0], rest, tok2, x2);
  }

  /**
   * Two extruding moves along X at height 0 from the initial state give two
   * segments, to (10, 0, 0) and (20, 0, 0), both extruding and both in layer 0.
   */
  lemma TwoExtrusions()
    ensures var r := Motion.Run(Motion.Initial(), 0, "", "", ["G1 X10 Y0 Z0 E1", "G1 X20 Y0 Z0 E1"]);
            var segs := r.state.segments;
            && r.failure.None? && |segs| == 2
            && PointOf(segs[0].coords) == Point(10.0, 0.0, 0.0) && PointOf(segs[1].coords) == Point(20.0, 0.0, 0.0)
            && forall k :: 0 <= k < 2 ==> Classifier.Label(segs, k).style == Extrude && Classifier.LayerOf(segs, k) == 0
  {
    var s0 := Motion.Initial();
    var lines := ["G1 X10 Y0 Z0 E1", "G1 X20 Y0 Z0 E1"];
    assert lines[0] == "G1" + " " + ("X10" + " " + "Y0 Z0 E1");
    assert lines[1] == "G1" + " " + ("X20" + " " + "Y0 Z0 E1");
    assert s0.offset['X'] == 0.0 && s0.offset['Y'] == 0.0 && s0.offset['Z'] == 0.0;
    assert Motion.Position(s0) == Point(0.0, 0.0, 0.0);
    assert "X10" == ['X'] + PyNumbers.IntToString(10) && PyText.NoSpace("X10");
    assert "X20" == ['X'] + PyNumbers.IntToString(20) && PyText.NoSpace("X20");
    TwoMoves(s0, 0, "", lines, "X10", 10, "X20", 20);
    FlatExtrusions(Motion.Run(s0, 0, "", "", lines).state.segments);
  }
}
