/**
 * The state machine of `GcodeModel` as values: the state its `do_*` handlers
 * read and write, one function per handler, the line interpreter
 * (`parseLine`) and the line-by-line driver (`GcodeParser.parseFile`).
 * The classes in parser.dfy are proved to follow these functions.
 */
module Motion {
  import opened Wrappers
  import opened Segments
  import PyText
  import PyNumbers

  /** The keys of `GcodeModel.relative`. */
  const Axes: set<char> := {'X', 'Y', 'Z', 'F', 'E'}

  /** The keys of `GcodeModel.offset`: every axis but the feed rate. */
  const OffsetAxes: set<char> := {'X', 'Y', 'Z', 'E'}

  /** The length of `GcodeModel.color`: three RGB slots, then five mixing weights (CMYKW). */
  const ColorSlots: nat := 8

  /** The codes `GcodeModel` has a `do_<code>` handler for. */
  const Handlers: set<string> := {"G0", "G1", "G90", "G91", "G92", "M163"}

  /** What `G92` without arguments resets. */
  const Home: map<char, real> := map['X' := 0.0, 'Y' := 0.0, 'Z' := 0.0]

  /**
   * The places where `GcodeModel` calls `self.warn`.  The class defines no
   * `warn`, so each of them raises and the parse is abandoned.
   */
  datatype GcodeError =
    | UnknownAxis(axes: set<char>)
    | ExtruderOutOfRange(index: int)
    | InvalidToolNumber(code: string)

  /** The fields of `GcodeModel` that the handlers change. */
  datatype MotionState = MotionState(
    relative: map<char, real>,
    offset: map<char, real>,
    isRelative: bool,
    color: seq<real>,
    toolnumber: int,
    segments: seq<Segment>)

  predicate WellFormed(s: MotionState) {
    s.relative.Keys == Axes && s.offset.Keys == OffsetAxes && |s.color| == ColorSlots
  }

  /** `GcodeModel.__init__`: everything zero, absolute mode, tool 0, no segments. */
  function Initial(): (s: MotionState)
    ensures WellFormed(s) && s.segments == [] && !s.isRelative
  {
    MotionState(map a | a in Axes :: 0.0, map a | a in OffsetAxes :: 0.0, false,
                seq(ColorSlots, _ => 0.0), 0, [])
  }

  /** The machine position: `relative + offset` on X, Y and Z. */
  function Position(s: MotionState): Point
    requires WellFormed(s)
  {
    Point(s.relative['X'] + s.offset['X'], s.relative['Y'] + s.offset['Y'], s.relative['Z'] + s.offset['Z'])
  }

  // ---------------------------------------------------------------- arguments

  /** The value of one argument token: the float after its letter, 1.0 when that does not parse. */
  function ArgValue(token: string): real
    requires token != []
  {
    match PyNumbers.ParseFloat(token[1..])
    case Some(v) => v
    case None => 1.0
  }

  predicate AllNonEmpty(tokens: seq<string>) {
    forall i :: 0 <= i < |tokens| ==> tokens[i] != []
  }

  /** The letter each argument token starts with. */
  function Letters(tokens: seq<string>): (r: seq<char>)
    requires AllNonEmpty(tokens)
    ensures |r| == |tokens|
  {
    seq(|tokens|, i requires 0 <= i < |tokens| => tokens[i][0])
  }

  /** The value each argument token carries after its letter. */
  function Values(tokens: seq<string>): (r: seq<real>)
    requires AllNonEmpty(tokens)
    ensures |r| == |tokens|
  {
    seq(|tokens|, i requires 0 <= i < |tokens| => ArgValue(tokens[i]))
  }

  /** The dictionary built by storing the first `n` keys with their values, in order. */
  function MapOf(keys: seq<char>, values: seq<real>, n: nat): map<char, real>
    requires n <= |keys| == |values|
  {
    if n == 0 then map[] else MapOf(keys, values, n - 1)[keys[n - 1] := values[n - 1]]
  }

  /** The dictionary's keys are the first `n` keys stored. */
  lemma {:induction false} MapOfKeys(keys: seq<char>, values: seq<real>, n: nat)
    requires n <= |keys| == |values|
    ensures MapOf(keys, values, n).Keys == set i | 0 <= i < n :: keys[i]
  {
    if n > 0 {
      MapOfKeys(keys, values, n - 1);
      assert (set i | 0 <= i < n :: keys[i]) == (set i | 0 <= i < n - 1 :: keys[i]) + {keys[n - 1]};
    }
  }

  /** `parseArgs(text)`: the argument dictionary of an argument string. */
  function DecodeArgs(text: string): map<char, real> {
    var tokens := PyText.Split(text);
    MapOf(Letters(tokens), Values(tokens), |tokens|)
  }

  /** A key holds the value stored with it LAST. */
  lemma {:induction false} MapOfLastWins(keys: seq<char>, values: seq<real>, n: nat, i: nat)
    requires i < n <= |keys| == |values|
    requires forall j :: i < j < n ==> keys[j] != keys[i]
    ensures keys[i] in MapOf(keys, values, n) && MapOf(keys, values, n)[keys[i]] == values[i]
  {
    if i < n - 1 {
      MapOfLastWins(keys, values, n - 1, i);
    }
  }

  /**
   * The dictionary has a key for exactly the letters that start a token, and
   * each letter maps to the value of the last token that starts with it.
   */
  lemma DecodeArgsLastWins(text: string, i: nat)
    requires i < |PyText.Split(text)|
    requires var tokens := PyText.Split(text);
             forall j :: i < j < |tokens| ==> tokens[j][0] != tokens[i][0]
    ensures var tokens := PyText.Split(text);
            && DecodeArgs(text).Keys == (set k | 0 <= k < |tokens| :: tokens[k][0])
            && DecodeArgs(text)[tokens[i][0]] == ArgValue(tokens[i])
  {
    var tokens := PyText.Split(text);
    var keys, values := Letters(tokens), Values(tokens);
    assert forall j :: i < j < |tokens| ==> keys[j] != keys[i];
    MapOfLastWins(keys, values, |tokens|, i);
    MapOfKeys(keys, values, |tokens|);
    assert forall k :: 0 <= k < |tokens| ==> keys[k] == tokens[k][0];
    assert (set k | 0 <= k < |tokens| :: keys[k]) == set k | 0 <= k < |tokens| :: tokens[k][0];
  }

  // ---------------------------------------------------------------- handlers

  /** `after` is `before` with at most one more segment, made from line `lineNb` with text `line`. */
  predicate AppendsAtMostOne(before: seq<Segment>, after: seq<Segment>, lineNb: int, line: string) {
    && |before| <= |after| <= |before| + 1
    && after[..|before|] == before
    && forall k :: |before| <= k < |after| ==> after[k].lineNb == lineNb && after[k].line == line
  }

  /** The `coords` `do_G1` computes: named axes added to (relative mode) or replacing the old values. */
  function Target(s: MotionState, args: map<char, real>): map<char, real> {
    map a | a in s.relative :: if a in args then (if s.isRelative then s.relative[a] + args[a] else args[a])
                                else s.relative[a]
  }

  /** The position `do_G1` jumps to and the segment it may emit, given the target `coords`. */
  function MoveSegment(s: MotionState, args: map<char, real>, coords: map<char, real>, kind: MoveKind,
                       lineNb: int, line: string): Segment
    requires WellFormed(s) && coords.Keys == Axes
  {
    var absolute := Coords(s.offset['X'] + coords['X'], s.offset['Y'] + coords['Y'], s.offset['Z'] + coords['Z'],
                           coords['F'], if 'E' in args then args['E'] else 0.0);
    NewSegment(kind, absolute, s.color, s.toolnumber, lineNb, line)
  }

  /**
   * `do_G1` (and `do_G0`, which delegates to it): move to the target, emit a
   * segment at the new position unless X, Y and Z all stay put, commit the
   * target either way.  An axis letter outside X Y Z F E reaches `warn` and
   * raises.  What a successful move does is `MoveEffect`.
   */
  function Move(s: MotionState, args: map<char, real>, kind: MoveKind, lineNb: int, line: string)
    : (r: Result<MotionState, GcodeError>)
    requires WellFormed(s)
    ensures r.Failure? <==> !(args.Keys <= Axes)
    ensures r.Failure? ==> r.error == UnknownAxis(args.Keys - Axes)
    ensures r.Success? ==> WellFormed(r.value) && AppendsAtMostOne(s.segments, r.value.segments, lineNb, line)
  {
    if !(args.Keys <= Axes) then Failure(UnknownAxis(args.Keys - Axes))
    else
      var coords := Target(s, args);
      var seg := MoveSegment(s, args, coords, kind, lineNb, line);
      var moved := seg.coords.x != s.relative['X'] + s.offset['X'] || seg.coords.y != s.relative['Y'] + s.offset['Y']
                   || seg.coords.z != s.relative['Z'] + s.offset['Z'];
      Success(s.(relative := coords, segments := if moved then s.segments + [seg] else s.segments))
  }

  /**
   * A successful move: axes not named keep their value; named ones are
   * added to (relative mode) or replaced (absolute mode); offsets, mode,
   * colour and tool stay.  No segment is emitted when the position does not
   * change; otherwise exactly one, at the new position, with the new feed
   * rate, the E of the command (0 without one), the current colour and tool,
   * and the line it came from.
   */
  lemma MoveEffect(s: MotionState, args: map<char, real>, kind: MoveKind, lineNb: int, line: string)
    requires WellFormed(s) && args.Keys <= Axes
    ensures var t := Move(s, args, kind, lineNb, line).value;
            && (forall a :: a in Axes && a !in args ==> t.relative[a] == s.relative[a])
            && (s.isRelative ==> forall a :: a in args ==> t.relative[a] == s.relative[a] + args[a])
            && (!s.isRelative ==> forall a :: a in args ==> t.relative[a] == args[a])
            && t.offset == s.offset && t.isRelative == s.isRelative
            && t.color == s.color && t.toolnumber == s.toolnumber
            && (Position(t) == Position(s) ==> t.segments == s.segments)
            && (Position(t) != Position(s) ==>
                 && |t.segments| == |s.segments| + 1 && t.segments[..|s.segments|] == s.segments
                 && var seg := t.segments[|s.segments|];
                    && PointOf(seg.coords) == Position(t)
                    && seg.coords.f == t.relative['F']
                    && seg.coords.e == (if 'E' in args then args['E'] else 0.0)
                    && seg == NewSegment(kind, seg.coords, s.color, s.toolnumber, lineNb, line))
  {
    var t := Move(s, args, kind, lineNb, line).value;
    assert t.relative == Target(s, args);
    if Position(t) != Position(s) {
      assert t.segments == s.segments + [MoveSegment(s, args, t.relative, kind, lineNb, line)];
    }
  }

  /** The absolute targets that name the same positions as the relative `deltas`. */
  function AbsoluteOf(s: MotionState, deltas: map<char, real>): map<char, real>
    requires deltas.Keys <= s.relative.Keys
  {
    map a | a in deltas :: s.relative[a] + deltas[a]
  }

  /**
   * Relative and absolute positioning agree: a `G91` move by `deltas` ends
   * where the `G90` move to the old values plus `deltas` ends, and emits the
   * same segment, up to its E, which is the command's own E either way.
   */
  lemma RelativeMatchesAbsolute(s: MotionState, deltas: map<char, real>, kind: MoveKind, lineNb: int, line: string)
    requires WellFormed(s) && deltas.Keys <= Axes
    ensures var r := Move(s.(isRelative := true), deltas, kind, lineNb, line).value;
            var q := Move(s.(isRelative := false), AbsoluteOf(s, deltas), kind, lineNb, line).value;
            && r.relative == q.relative && r.offset == q.offset
            && |r.segments| == |q.segments|
            && forall k :: 0 <= k < |r.segments| ==>
                 r.segments[k] == q.segments[k].(coords := q.segments[k].coords.(e := r.segments[k].coords.e))
  {
    var rs, qs := s.(isRelative := true), s.(isRelative := false);
    var abs := AbsoluteOf(s, deltas);
    var t := Target(rs, deltas);
    assert t == Target(qs, abs);
    var rseg := MoveSegment(rs, deltas, t, kind, lineNb, line);
    var qseg := MoveSegment(qs, abs, t, kind, lineNb, line);
    assert rseg == qseg.(coords := qseg.coords.(e := rseg.coords.e));
    var r := Move(rs, deltas, kind, lineNb, line).value;
    var q := Move(qs, abs, kind, lineNb, line).value;
    if r.segments != s.segments {
      assert r.segments == s.segments + [rseg] && q.segments == s.segments + [qseg];
    }
  }

  /**
   * `do_G92`: re-anchor each named axis (X, Y, Z when none is named) at the
   * given value without moving: the offset absorbs the difference.  The feed
   * rate or any other letter reaches `warn` and raises.  What a successful
   * call does is `SetPositionEffect`.
   */
  function SetPosition(s: MotionState, args: map<char, real>): (r: Result<MotionState, GcodeError>)
    requires WellFormed(s)
    ensures var given := if |args| == 0 then Home else args;
            && (r.Failure? <==> !(given.Keys <= OffsetAxes))
            && (r.Failure? ==> r.error == UnknownAxis(given.Keys - OffsetAxes))
    ensures r.Success? ==> WellFormed(r.value) && r.value.segments == s.segments
  {
    var given := if |args| == 0 then Home else args;
    if !(given.Keys <= OffsetAxes) then Failure(UnknownAxis(given.Keys - OffsetAxes))
    else
      Success(s.(offset := map a | a in s.offset :: if a in given then s.offset[a] + (s.relative[a] - given[a]) else s.offset[a],
                 relative := map a | a in s.relative :: if a in given then given[a] else s.relative[a]))
  }

  /**
   * A successful `G92`: each given axis now reads the given value while
   * offset plus value, and so the machine position, stays what it was;
   * every other axis, the mode, colour, tool and segments stay.
   */
  lemma SetPositionEffect(s: MotionState, args: map<char, real>)
    requires WellFormed(s)
    requires (if |args| == 0 then Home else args).Keys <= OffsetAxes
    ensures var given := if |args| == 0 then Home else args;
            var t := SetPosition(s, args).value;
            && (forall a :: a in given ==> t.relative[a] == given[a])
            && (forall a :: a in given ==> t.offset[a] + t.relative[a] == s.offset[a] + s.relative[a])
            && (forall a :: a in Axes && a !in given ==> t.relative[a] == s.relative[a])
            && (forall a :: a in OffsetAxes && a !in given ==> t.offset[a] == s.offset[a])
            && Position(t) == Position(s)
            && t.isRelative == s.isRelative && t.color == s.color && t.toolnumber == s.toolnumber
  {
  }

  /** The extruder index `M163` reads: `int(S)`, 0 when `S` is absent. */
  function MixIndex(args: map<char, real>): int {
    if 'S' in args then PyNumbers.Trunc(args['S']) else 0
  }

  /**
   * `do_M163`: write the weight `P` (default 1.0) into mixing slot `S`
   * (default 0), which is colour entry `S + 3`.  An index outside the five
   * mixing slots reaches `warn` and raises.
   */
  function SetMixWeight(s: MotionState, args: map<char, real>): (r: Result<MotionState, GcodeError>)
    requires WellFormed(s)
    ensures r.Failure? <==> !(0 <= MixIndex(args) < ColorSlots - 3)
    ensures r.Failure? ==> r.error == ExtruderOutOfRange(MixIndex(args))
    ensures r.Success? ==> WellFormed(r.value)
    ensures r.Success? ==> r.value.color[MixIndex(args) + 3] == (if 'P' in args then args['P'] else 1.0)
    ensures r.Success? ==> forall j :: 0 <= j < ColorSlots && j != MixIndex(args) + 3 ==> r.value.color[j] == s.color[j]
    ensures r.Success? ==> r.value.(color := s.color) == s
  {
    var index := MixIndex(args);
    var weight := if 'P' in args then args['P'] else 1.0;
    if index < 0 || index >= |s.color| - 3 then Failure(ExtruderOutOfRange(index))
    else Success(s.(color := s.color[index + 3 := weight]))
  }

  /** The `T<n>` branch of `parseLine`: `toolnumber = int(code[1:])`, `warn` (and so raise) when that fails. */
  function SelectTool(s: MotionState, code: string): (r: Result<MotionState, GcodeError>)
    requires code != []
    ensures r.Failure? <==> PyNumbers.ParseInt(code[1..]).None?
    ensures r.Success? ==> r.value == s.(toolnumber := PyNumbers.ParseInt(code[1..]).value)
  {
    match PyNumbers.ParseInt(code[1..])
    case Some(n) => Success(s.(toolnumber := n))
    case None => Failure(InvalidToolNumber(code))
  }

  /** `T` followed by the decimal digits of `n` selects tool `n`. */
  lemma SelectToolByNumber(s: MotionState, n: int)
    ensures SelectTool(s, "T" + PyNumbers.IntToString(n)) == Success(s.(toolnumber := n))
  {
    PyNumbers.ParseIntRoundTrip(n);
    assert ("T" + PyNumbers.IntToString(n))[1..] == PyNumbers.IntToString(n);
  }

  /** The dispatch of `parseLine` on a non-empty code: a handler, the tool branch, or nothing. */
  function Dispatch(s: MotionState, code: string, argText: string, lineNb: int, line: string)
    : (r: Result<MotionState, GcodeError>)
    requires WellFormed(s) && code != []
    ensures r.Success? ==> WellFormed(r.value)
    ensures code !in Handlers && code[0] != 'T' ==> r == Success(s)
    ensures r.Success? && code != "G0" && code != "G1" ==> r.value.segments == s.segments
    ensures r.Success? ==> AppendsAtMostOne(s.segments, r.value.segments, lineNb, line)
  {
    var args := DecodeArgs(argText);
    if code == "G0" then Move(s, args, G0, lineNb, line)
    else if code == "G1" then Move(s, args, G1, lineNb, line)
    else if code == "G90" then Success(s.(isRelative := false))
    else if code == "G91" then Success(s.(isRelative := true))
    else if code == "G92" then SetPosition(s, args)
    else if code == "M163" then SetMixWeight(s, args)
    else if code[0] == 'T' then SelectTool(s, code)
    else Success(s)
  }

  // ---------------------------------------------------------------- lines

  /** The outcome of one line: the new state, the comment buffer, and the error raised, if any. */
  datatype LineOutcome = LineOutcome(state: MotionState, comment: string, error: Option<GcodeError>)

  /** The command text of a line: what precedes the first `;`, stripped. */
  function CommandText(line: string): string {
    PyText.Strip(PyText.SplitOnce(line, ';')[0])
  }

  /**
   * `parseLine`: keep the text after the first `;` as the comment (the old
   * comment stays when there is none), take the first token of the command
   * text as the code and the rest as its arguments, and dispatch.  A failing
   * handler leaves the state as it was.
   */
  function LineStep(s: MotionState, comment: string, line: string, lineNb: int): (r: LineOutcome)
    requires WellFormed(s)
    ensures WellFormed(r.state)
    ensures var bits := PyText.SplitOnce(line, ';');
            r.comment == if |bits| == 2 then bits[1] else comment
    ensures r.error.Some? ==> r.state == s
    ensures AppendsAtMostOne(s.segments, r.state.segments, lineNb, line)
  {
    var bits := PyText.SplitOnce(line, ';');
    var newComment := if |bits| == 2 then bits[1] else comment;
    var comm := PyText.SplitFirst(CommandText(line));
    if comm == [] then LineOutcome(s, newComment, None)
    else
      match Dispatch(s, comm[0], if |comm| == 2 then comm[1] else "", lineNb, line)
      case Success(t) => LineOutcome(t, newComment, None)
      case Failure(e) => LineOutcome(s, newComment, Some(e))
  }

  /** A line whose command text holds no token (blank, or only a comment) changes nothing and raises nothing. */
  lemma BlankLineKeepsState(s: MotionState, comment: string, line: string, lineNb: int)
    requires WellFormed(s) && PyText.Split(CommandText(line)) == []
    ensures var r := LineStep(s, comment, line, lineNb);
            r.state == s && r.error.None?
  {
    PyText.SplitFirstAgrees(CommandText(line));
  }

  /** A line `code args` with no comment: its command text is the line, its code and arguments the two parts. */
  lemma CommandTextOf(code: string, args: string)
    requires code != [] && PyText.NoSpace(code) && ';' !in code + " " + args
    requires args != [] && !PyText.IsSpace(args[0]) && !PyText.IsSpace(args[|args| - 1])
    ensures var line := code + " " + args;
            CommandText(line) == line && PyText.SplitFirst(line) == [code, args]
  {
    var line := code + " " + args;
    PyText.SplitOnceAbsent(line);
    assert line[0] == code[0] && line[|line| - 1] == args[|args| - 1];
    PyText.StripUnpadded(line);
    PyText.SplitFirstOfPair(code, args);
  }

  /**
   * A line whose command text holds a word: its code is the first word of
   * `split()`, the words of its argument text are the remaining words, and
   * the line does what the dispatch of that code on those arguments does:
   * the handler's new state on success, the old state and the handler's
   * error on failure.
   */
  lemma CommandLineStep(s: MotionState, comment: string, line: string, lineNb: int)
    requires WellFormed(s) && PyText.Split(CommandText(line)) != []
    ensures var words := PyText.Split(CommandText(line));
            var f := PyText.SplitFirst(CommandText(line));
            var argText := if |f| == 2 then f[1] else "";
            var d := Dispatch(s, words[0], argText, lineNb, line);
            var r := LineStep(s, comment, line, lineNb);
            && PyText.Split(argText) == words[1..]
            && (d.Success? ==> r.state == d.value && r.error.None?)
            && (d.Failure? ==> r.state == s && r.error == Some(d.error))
  {
    PyText.SplitFirstAgrees(CommandText(line));
  }

  /** A comment-free line `code args` keeps the comment and does what the dispatch of its code on its arguments does. */
  lemma CommentFreeLineStep(s: MotionState, comment: string, code: string, args: string, lineNb: int)
    requires WellFormed(s)
    requires code != [] && PyText.NoSpace(code) && ';' !in code + " " + args
    requires args != [] && !PyText.IsSpace(args[0]) && !PyText.IsSpace(args[|args| - 1])
    ensures var line := code + " " + args;
            var d := Dispatch(s, code, args, lineNb, line);
            var r := LineStep(s, comment, line, lineNb);
            && r.comment == comment
            && (d.Success? ==> r.state == d.value && r.error.None?)
            && (d.Failure? ==> r.state == s && r.error == Some(d.error))
  {
    CommandTextOf(code, args);
    PyText.SplitOnceAbsent(code + " " + args);
  }

  /** A letter followed by the decimal digits of `n` carries the value `n`. */
  lemma ArgValueOfInt(c: char, n: int)
    ensures ArgValue([c] + PyNumbers.IntToString(n)) == n as real
  {
    PyNumbers.ParseFloatOfInt(n);
    assert ([c] + PyNumbers.IntToString(n))[1..] == PyNumbers.IntToString(n);
  }

  /** A bare letter (`E` with no number) carries the fallback value 1.0. */
  lemma ArgValueBareLetter(c: char)
    ensures ArgValue([c]) == 1.0
  {
    PyNumbers.ParseFloatEmpty();
    assert [c][1..] == "";
  }

  /** A token whose text after the letter holds a character no float can hold carries the fallback value 1.0. */
  lemma ArgValueUnparsable(token: string, i: nat)
    requires 1 <= i < |token| && !PyNumbers.FloatChar(token[i])
    ensures ArgValue(token) == 1.0
  {
    PyNumbers.ParseFloatRejects(token[1..], i - 1);
  }

  // ---------------------------------------------------------------- files

  datatype ParseFailure = ParseFailure(lineNb: int, line: string, error: GcodeError)

  /** Where the driver stops: the state, the parser's line counter, line and comment, and the failure. */
  datatype RunOutcome = RunOutcome(state: MotionState, lineNb: int, line: string, comment: string,
                                   failure: Option<ParseFailure>)

  /**
   * `GcodeParser.parseFile` over the lines of a file: count the line, strip
   * its trailing whitespace, interpret it; stop at the first line that raises.
   */
  function Run(s: MotionState, lineNb: int, line: string, comment: string, lines: seq<string>): (r: RunOutcome)
    requires WellFormed(s)
    ensures WellFormed(r.state)
    decreases |lines|
  {
    if lines == [] then RunOutcome(s, lineNb, line, comment, None)
    else
      var n, text := lineNb + 1, PyText.RStrip(lines[0]);
      var o := LineStep(s, comment, text, n);
      if o.error.Some? then RunOutcome(o.state, n, text, o.comment, Some(ParseFailure(n, text, o.error.value)))
      else Run(o.state, n, text, o.comment, lines[1..])
  }

  /**
   * Segments `from..` of `segs` come from distinct lines of `lines`, in file
   * order: their numbers strictly increase, lie in `(lineNb, last]`, and each
   * carries the stripped text of its line.
   */
  predicate FromLines(segs: seq<Segment>, from: nat, lineNb: int, last: int, lines: seq<string>) {
    && from <= |segs|
    && (forall k :: from <= k < |segs| ==>
          && lineNb < segs[k].lineNb <= last
          && segs[k].lineNb - lineNb <= |lines|
          && segs[k].line == PyText.RStrip(lines[segs[k].lineNb - lineNb - 1]))
    && (forall j, k :: from <= j < k < |segs| ==> segs[j].lineNb < segs[k].lineNb)
  }

  /** A complete run counts every line; a failed one stops at the line that raised. */
  lemma {:induction false} RunCountsLines(s: MotionState, lineNb: int, line: string, comment: string, lines: seq<string>)
    requires WellFormed(s)
    ensures var r := Run(s, lineNb, line, comment, lines);
            && (r.failure.None? ==> r.lineNb == lineNb + |lines|)
            && (r.failure.Some? ==> r.failure.value.lineNb == r.lineNb && lineNb < r.lineNb <= lineNb + |lines|)
            && lineNb <= r.lineNb
    decreases |lines|
  {
    if lines != [] {
      var n, text := lineNb + 1, PyText.RStrip(lines[0]);
      var o := LineStep(s, comment, text, n);
      if o.error.None? {
        RunCountsLines(o.state, n, text, o.comment, lines[1..]);
      }
    }
  }

  /** Parsing a file only appends to the segment list. */
  lemma {:induction false} RunOnlyAppends(s: MotionState, lineNb: int, line: string, comment: string, lines: seq<string>)
    requires WellFormed(s)
    ensures var r := Run(s, lineNb, line, comment, lines);
            |r.state.segments| >= |s.segments| && r.state.segments[..|s.segments|] == s.segments
    decreases |lines|
  {
    if lines != [] {
      var n, text := lineNb + 1, PyText.RStrip(lines[0]);
      var o := LineStep(s, comment, text, n);
      if o.error.None? {
        RunOnlyAppends(o.state, n, text, o.comment, lines[1..]);
        var r := Run(o.state, n, text, o.comment, lines[1..]);
        assert r == Run(s, lineNb, line, comment, lines);
        PrefixOfPrefix(s.segments, o.state.segments, r.state.segments);
      }
    }
  }

  lemma PrefixOfPrefix(a: seq<Segment>, b: seq<Segment>, c: seq<Segment>)
    requires |a| <= |b| && b[..|a|] == a && |b| <= |c| && c[..|b|] == b
    ensures c[..|a|] == a
  {
    assert c[..|a|] == c[..|b|][..|a|];
  }

  /**
   * The segments a file adds come from distinct lines, in file order, each
   * carrying the text of the line it came from.
   */
  lemma {:induction false} RunProvenance(s: MotionState, lineNb: int, line: string, comment: string, lines: seq<string>)
    requires WellFormed(s)
    ensures var r := Run(s, lineNb, line, comment, lines);
            FromLines(r.state.segments, |s.segments|, lineNb, r.lineNb, lines)
    decreases |lines|
  {
    if lines != [] {
      var n, text := lineNb + 1, PyText.RStrip(lines[0]);
      var o := LineStep(s, comment, text, n);
      if o.error.None? {
        var r := Run(o.state, n, text, o.comment, lines[1..]);
        assert r == Run(s, lineNb, line, comment, lines);
        assert FromLines(r.state.segments, |s.segments|, lineNb, r.lineNb, lines) by {
          RunProvenance(o.state, n, text, o.comment, lines[1..]);
          RunOnlyAppends(o.state, n, text, o.comment, lines[1..]);
          RunCountsLines(o.state, n, text, o.comment, lines[1..]);
          ProvenanceStep(s.segments, o.state.segments, r.state.segments, lineNb, r.lineNb, text, lines);
        }
      } else {
        assert Run(s, lineNb, line, comment, lines).state == s;
      }
    }
  }

  lemma ProvenanceStep(before: seq<Segment>, mid: seq<Segment>, after: seq<Segment>,
                       lineNb: int, last: int, text: string, lines: seq<string>)
    requires lines != [] && text == PyText.RStrip(lines[0])
    requires AppendsAtMostOne(before, mid, lineNb + 1, text)
    requires |after| >= |mid| && after[..|mid|] == mid && lineNb + 1 <= last
    requires FromLines(after, |mid|, lineNb + 1, last, lines[1..])
    ensures FromLines(after, |before|, lineNb, last, lines)
  {
    forall k | |before| <= k < |after|
      ensures lineNb < after[k].lineNb <= last
      ensures after[k].lineNb - lineNb <= |lines|
      ensures after[k].line == PyText.RStrip(lines[after[k].lineNb - lineNb - 1])
    {
      if k < |mid| {
        assert after[k] == mid[k];
      } else {
        assert lines[1..][after[k].lineNb - (lineNb + 1) - 1] == lines[after[k].lineNb - lineNb - 1];
      }
    }
    forall j, k | |before| <= j < k < |after| ensures after[j].lineNb < after[k].lineNb {
      if j < |mid| {
        assert after[j] == mid[j];
      }
    }
  }
}
