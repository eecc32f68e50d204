# G-code interpreter of the Blender 3D-print importer, in Dafny

This project models the G-code interpretation core of `parser.py`, the parser
of a Blender add-on that imports 3D-printer toolpaths. The core has four parts:

- **Line interpretation.** `GcodeModel.parseLine` and `parseArgs` split a line at its first `;`. They take the first token of the stripped command text as the code and decode the remaining tokens into an axis-to-number dictionary.
- **Motion state.** The handlers `do_G0`, `do_G1`, `do_G90`, `do_G91`, `do_G92` and `do_M163`, and the `T<n>` branch of `parseLine`, update the relative position, the offsets, the positioning mode, the colour vector and the tool number. Moves append `Segment` records.
- **Classification.** `classifySegments` labels every segment `travel` or `extrude`, numbers the layers and cuts the segment list into layers.
- **Subdivision.** `subdivide_segments` replaces every segment longer than a threshold by an even subdivision of it.

`GcodeParser.parseFile` drives the whole thing line by line.

The model has two levels:

- **Values.** Modules `Motion`, `Classifier` and `Subdivider` describe each operation as a function on values. Modules `PyText` and `PyNumbers` do the same for the Python string and number builtins the code relies on. The properties of the core are proved at this level.
- **Classes.** Module `Parser` holds the classes `GcodeModel` and `GcodeParser`. Their fields are updated in place, as in the source. Every method, loop included, is proved to compute exactly what the value-level function says.

Module `Scenarios` holds worked examples: its lemmas state what `Motion.Run` computes on short programs from the initial state, and what the classifier and the subdivider make of small segment lists.

Two behaviours of the code that a reader might not expect, and that the model follows:

- **`warn` raises.** `GcodeModel` calls `self.warn(...)` for an unknown axis, an extruder index out of range and an invalid tool number. `warn` is defined only on `GcodeParser`, so each of these calls raises `AttributeError` and ends the parse. The model returns an error from the handler, and the driver stops at that line with a `ParseFailure`.
- **No warning for bad numbers.** A token whose number does not parse gets the value 1.0 without any warning, which is what the code does.

Representation choices:

- Coordinates are mathematical reals.
- `float()` is modelled on the finite decimal literals it accepts: an optional sign, digits with single underscores, an optional point and an optional exponent.
- `round(x, 5)` is exact round-half-even at five decimal places, and `int(x)` of a float truncates toward zero.
- The distance of the subdivider is kept squared. `math.ceil(d / t)` is the least `n` with `(n t)^2 >= d^2`, and `np.linspace` is exact linear interpolation.

## Model

| member | source | states |
|---|---|---|
| Segments.NewSegment | parser.py:9-19 | `Segment(type, coords, color, toolnumber, lineNb, line)`: the given fields, with style, layer index and distance unset. |
| Parser.GcodeModel.constructor | parser.py:25-42 | The fields start at zero relative position and offsets, absolute mode, an all-zero colour vector of eight slots, tool 0, and no segments or layers: the state `Motion.Initial`. |
| Parser.GcodeModel.MoveTarget | parser.py:45-53 | The loop over the argument letters yields the target that `Motion.Target` describes: named axes added (relative mode) or replaced (absolute mode), the others kept. It reports the unknown-axis error exactly when a letter is not one of X Y Z F E. |
| Parser.GcodeModel.DoG1 | parser.py:44-81 | `do_G1` settles as `Motion.Move` says: on success the fields become the function's new state, and on an unknown axis nothing changes and the error is returned. |
| Parser.GcodeModel.Jump | parser.py:55-81 | Once the target is known, the segment at offset plus target (F as is, E from the arguments or 0) is appended only when X, Y or Z changes, and the target is committed either way, exactly as in `Motion.Move`. |
| Parser.GcodeModel.DoG0 | parser.py:83-84 | `do_G0` is the `do_G1` move with the given kind. |
| Parser.GcodeModel.DoG90 | parser.py:86-87 | Only the mode changes, to absolute. |
| Parser.GcodeModel.DoG91 | parser.py:89-90 | Only the mode changes, to relative. |
| Parser.GcodeModel.DoG92 | parser.py:92-100 | `do_G92` settles as `Motion.SetPosition` says. |
| Parser.GcodeModel.DoM163 | parser.py:102-116 | `do_M163` settles as `Motion.SetMixWeight` says. |
| Parser.GcodeModel.ParseArgs | parser.py:118-129 | The dictionary built is `Motion.DecodeArgs` of the argument text; no text gives the empty dictionary. |
| Parser.GcodeModel.Dispatch | parser.py:141-155 | The handler chosen by the code (G0, G1, G90, G91, G92, M163, `T<n>`, or nothing) settles as `Motion.Dispatch` says. |
| Parser.GcodeModel.ParseLine | parser.py:131-155 | The fields, the parser's comment and the error are those of `Motion.LineStep` on the parser's current line; the parser's line and line number are untouched. |
| Parser.GcodeModel.FeedLine | parser.py:159-162 | One loop iteration: the line counter goes up by one, the line is stored without trailing whitespace, and it is interpreted by `Motion.LineStep`. |
| Parser.GcodeModel.ParseFile | parser.py:157-163 | The loop over the lines ends in the outcome of `Motion.Run`: the state, the parser's line number, line and comment, and the first failure, if any. |
| Parser.GcodeModel.AddSegment | parser.py:165-166 | The segment is appended and nothing else changes. |
| Parser.GcodeModel.ClassifySegments | parser.py:168-202 | The segment list becomes `Classifier.Labelled` of the old one, and `Classifier.Layers` of it is appended to `layers`; the motion fields stay. |
| Parser.GcodeModel.SubdivideSegments | parser.py:204-251 | The segment list becomes `Subdivider.Subdivide` of the old one; every other field stays. |
| Parser.Reanchored | parser.py:95-98 | After the loop of `do_G92`, each given axis has the given relative value and its offset has moved by the old relative value minus the given one; the other axes are unchanged. |
| Parser.ArgsOf | parser.py:122-128 | After the loop of `parseArgs`, the dictionary holds each token's first letter mapped to its value, built in token order. |
| Parser.Subdivided | parser.py:213-251 | The loop of `subdivide_segments` builds `Subdivider.Subdivide` of the segment list. |
| Parser.Cut | parser.py:227-245 | The inner loop builds the sub-segments of all samples whose X, Y or Z differs from the cursor, in sample order. |
| Parser.GcodeParser.constructor | parser.py:344-350 | A fresh model in the initial state, line number 0, empty line and empty comment. |
| Parser.GcodeParser.ParseFile | parser.py:352-358 | `GcodeParser.parseFile` ends in the outcome of `Motion.Run` on the model's state and its own counters, and returns its model. |
| Motion.Initial | parser.py:25-42 | The initial state is well formed, has no segments and is in absolute mode. |
| Motion.Target | parser.py:45-53 | The `coords` loop of `do_G1`: each named axis has the argument added (relative mode) or is replaced by it (absolute mode), and the other axes keep their value. |
| Motion.MoveSegment | parser.py:55-74 | The segment `do_G1` builds: offset plus target on X, Y and Z, F from the target, E from the arguments or 0, with the current colour, tool, line number and line. |
| Motion.Move | parser.py:44-81 | A move fails exactly when some argument letter is not an axis, and then with that set of letters. A successful move appends at most one segment, which carries the command's line. |
| Motion.MoveEffect | parser.py:45-81 | In a successful move, absent axes keep their values. Named axes are added to (relative mode) or replaced (absolute mode). Offsets, mode, colour and tool stay. A move whose position does not change appends nothing. Otherwise exactly one segment is appended: at the new position, with the new F, the command's E (0 without one), the current colour and tool, and the line. |
| Motion.RelativeMatchesAbsolute | parser.py:45-81 | A relative move by `d` and an absolute move to the old values plus `d` reach the same relative position and emit the same segments, up to each segment's E. |
| Motion.SetPosition | parser.py:92-100 | `G92` (X0 Y0 Z0 when no axis is named) fails exactly when a named letter is not X, Y, Z or E, and then with those letters. A success never touches the segments. |
| Motion.SetPositionEffect | parser.py:92-98 | After `G92`, each given axis reads the given value while offset plus relative value stays the same. The machine position is unchanged. Other axes, mode, colour and tool stay. |
| Motion.MixIndex | parser.py:103 | `int(args.get('S', 0))`: the truncated S, 0 when S is absent. |
| Motion.SetMixWeight | parser.py:102-108 | `M163` fails exactly when `int(S)` (default 0) is outside the five mixing slots. Otherwise only colour entry `S + 3` changes, to `P` (default 1.0). The vector keeps its eight slots and nothing else changes. |
| Motion.SelectTool | parser.py:149-153 | `T<x>` fails exactly when `int(x)` fails; otherwise only the tool number changes, to `int(x)`. |
| Motion.SelectToolByNumber | parser.py:149-151 | `T` followed by the decimal digits of `n` selects tool `n`. |
| Motion.Dispatch | parser.py:141-155 | A code with no handler and not starting with `T` changes nothing. Only G0 and G1 can add segments, and at most one, which carries the line. |
| Motion.CommandText | parser.py:132-136 | The text before the first `;`, stripped: `bits[0].strip()`. |
| Motion.LineStep | parser.py:131-155 | The comment becomes the text after the first `;`, or stays when there is none. A raising line changes no state. A line adds at most one segment. |
| Motion.BlankLineKeepsState | parser.py:136-141 | A line whose command text holds no token changes no state and raises nothing. |
| Motion.CommandLineStep | parser.py:131-155 | On any line whose command text holds a word, the code is the first word of `split()` and the argument text splits into the remaining words. On success the line leaves the dispatch's new state with no error; on failure it leaves the old state and the dispatch's error. |
| Motion.CommentFreeLineStep | parser.py:131-147 | A line `code args` with no `;` keeps the old comment. Its state and error are those of the dispatch of `code` on `args`, on success and on failure. |
| Motion.ArgValue | parser.py:123-127 | The value of one argument token: `float` of the text after its letter, or 1.0 when that raises ValueError. `Motion.ArgValueOfInt`, `Motion.ArgValueBareLetter` and `Motion.ArgValueUnparsable` pin it down. |
| Motion.Letters | parser.py:121-123 | The first character of each token, in order. |
| Motion.Values | parser.py:121-127 | The `ArgValue` of each token, in order. |
| Motion.MapOf | parser.py:119-128 | The dictionary built by storing the keys with their values one after the other, as `dic[letter] = coord` does. `Motion.MapOfKeys` and `Motion.MapOfLastWins` state its keys and values. |
| Motion.DecodeArgs | parser.py:118-129 | `parseArgs`: `split()` the text and store each token's letter with its value; empty or absent text gives the empty dictionary. `Motion.DecodeArgsLastWins` states its keys and values. |
| Motion.DecodeArgsLastWins | parser.py:118-129 | The argument dictionary has a key for exactly the first letters of the tokens, and a letter maps to the value of the last token that starts with it. |
| Motion.MapOfLastWins | parser.py:122-128 | In a dictionary built key by key, a key holds the value stored with it last. |
| Motion.MapOfKeys | parser.py:122-128 | The dictionary's keys are exactly the keys stored. |
| Motion.ArgValueOfInt | parser.py:123-127 | A token made of a letter and the decimal digits of `n` carries the value `n`. |
| Motion.ArgValueBareLetter | parser.py:122-128 | A bare letter such as `E` carries the fallback value 1.0. |
| Motion.ArgValueUnparsable | parser.py:122-128 | A token whose text after the letter holds a character no float literal can hold carries the fallback value 1.0. |
| Motion.Run | parser.py:352-358 | The driver keeps the state well formed. |
| Motion.RunCountsLines | parser.py:352-358 | A complete run counts every line. A failed run stops at the line that raised and reports that line's number. |
| Motion.RunOnlyAppends | parser.py:352-358 | Parsing a file only appends to the segment list. |
| Motion.RunProvenance | parser.py:352-358 | The segments a file adds come from lines of the file, in file order, at most one per line. Each carries its line's number and text without trailing whitespace. |
| Classifier.ScanTo | parser.py:179-199 | After `n` iterations the loop's cursor is the coordinates of segment `n - 1`, or all zeros when `n` is 0. |
| Classifier.StyleOf | parser.py:180-185 | `extrude` when X, Y or Z differs from the cursor and E is positive, `travel` otherwise. |
| Classifier.OpensLayer | parser.py:188-190 | Segment `i` is not the last, its Z differs from the current layer height, and the next segment has positive E. |
| Classifier.Label | parser.py:180-198 | A classified segment is the same move with a style and a layer index. It is `extrude` exactly when its X, Y or Z differs from the previous segment's (all zeros before the first) and its E is positive, and `travel` otherwise. Its layer index is set; `Classifier.LayerOpensExactly` states which index it is. |
| Classifier.Labelled | parser.py:179-199 | The classified list has one labelled segment per input segment, in order. |
| Classifier.Layers | parser.py:187-202 | The layers appended to `self.layers`: every closed layer, then the open one unless it is empty. `Classifier.LayersCoverSegments` and `Classifier.LayersNumbered` state their contents. |
| Classifier.LayerZBefore | parser.py:176-194 | The current layer height before segment `i`, from the segments alone: the Z of the last earlier segment that opened a layer, 0.0 when none did. |
| Classifier.LayersCoverSegments | parser.py:187-202 | The layers, concatenated, are exactly the classified segment list. |
| Classifier.LayersNumbered | parser.py:187-202 | Layer `k` holds exactly the segments labelled `k`. Only the first layer can be empty. There are no layers exactly when there are no segments, and otherwise one per index up to the last segment's. |
| Classifier.LayerIndexSteps | parser.py:187-197 | The first index is 0 or 1. Each later segment keeps the index or raises it by one. The last segment never opens a layer. |
| Classifier.ScanLayerZ | parser.py:176-194 | The loop's `currentLayerZ` before segment `i` is `LayerZBefore(segs, i)`: the Z of the last earlier segment that opened a layer, or 0.0 when none did. |
| Classifier.LayerOpensExactly | parser.py:175-197 | Segment `i` gets the previous segment's layer index (0 for the first) plus one exactly when it is not the last segment and the next segment has positive E and its Z differs from the current layer's height. Otherwise it keeps that index. |
| Classifier.ClassifyIdempotent | parser.py:168-202 | Classifying an already classified list changes neither the labels nor the layers. |
| Subdivider.Subdivide | parser.py:204-251 | `subdivide_segments`: the new segment list, each original segment replaced by its pieces. `Subdivider.SubdivideGrows`, `Subdivider.SubdivideProvenance` and `Subdivider.SubdivideKeepsOrder` state its properties. |
| Subdivider.SubdivideTo | parser.py:213-249 | The list after the first `j` original segments, each compared with the original segment before it (all zeros before the first). |
| Subdivider.DistSq | parser.py:214-218 | The squared distance is never negative, and it is zero for two dictionaries with the same X, Y and Z. |
| Subdivider.SubdivCount | parser.py:221-222 | The count is the least `n` with `n t >= d`. It is at least 2 when `d > t`. |
| Subdivider.Lerp | parser.py:225 | Sample `i` of `np.linspace(a, b, num=n, endpoint=True)`: `a + (b - a) i / (n - 1)`. |
| Subdivider.SamplePoint | parser.py:225-231 | The X, Y and Z of sample `i` of the move from the cursor to the segment's end. |
| Subdivider.LerpEnds | parser.py:225 | The first sample is the start and the last is the end. A later sample equals the start exactly when start and end are equal. |
| Subdivider.SamplesAfterFirst | parser.py:227-245 | Of the samples of a move that changes position, exactly the first, the cursor itself, is dropped. |
| Subdivider.EShare | parser.py:234-237 | The E of every piece: `round(E / (n - 1), 5)` when E is positive, 0 otherwise. |
| Subdivider.SubSegment | parser.py:227-245 | The piece at sample `i`: the sample's X, Y and Z, the original's F, the E share, and the original's kind, colour, tool, line, style and layer index. |
| Subdivider.Samples | parser.py:227-245 | The pieces of samples `0..k-1` whose X, Y or Z differs from the cursor, in sample order. |
| Subdivider.Piece | parser.py:213-249 | A segment within the threshold passes through with its distance recorded. Every replacement is non-empty and ends at the segment's own end point, and each of its pieces keeps the segment's kind, colour, tool, line, style and layer index. |
| Subdivider.LongSegmentPieces | parser.py:221-245 | A longer segment becomes `n - 1` sub-segments, `n >= 2` being the count. Sub-segment `j` is at sample `j + 1`, copies F, gets E `round(E / (n - 1), 5)` (0 when E is not positive) and records no distance. |
| Subdivider.ShortSegmentsPassThrough | parser.py:246-247 | When no move exceeds the threshold, the output is the input with each move's distance recorded. |
| Subdivider.SubdivideGrows | parser.py:213-251 | Subdivision never loses a move: the output is at least as long as the input and ends where the last input segment does. |
| Subdivider.SubdivideProvenance | parser.py:242-247 | Every output segment carries the kind, colour, tool, line, style and layer index of an input segment. |
| Subdivider.SubdivideKeepsOrder | parser.py:213-251 | Line numbers in order in the input stay in order in the output. |
| PyText.IsSpace | parser.py:136 | `str.isspace()` on ASCII: tab, line feed, vertical tab, form feed, carriage return, the separators 0x1C-0x1F and space. |
| PyText.LStrip | parser.py:136 | `lstrip` removes only leading whitespace, and all of it. |
| PyText.RStrip | parser.py:161 | `rstrip` keeps a prefix and removes only trailing whitespace, and all of it. |
| PyText.Strip | parser.py:136 | `strip` leaves no whitespace at either end and drops no non-whitespace character. |
| PyText.StripTrims | parser.py:136 | The result of `strip` is the slice of the text that starts where the leading whitespace ends. Only whitespace lies before and after it, so no interior character is dropped. |
| PyText.LStripSuffix | parser.py:136 | What `lstrip` keeps is a suffix of its input. |
| PyText.Split | parser.py:121 | `split()` yields non-empty tokens without whitespace. |
| PyText.SplitKeepsText | parser.py:121 | The tokens of `split()`, concatenated, are exactly the non-whitespace characters of the text. |
| PyText.SplitJoinRoundTrip | parser.py:121 | `split()` inverts `' '.join` on non-empty tokens without whitespace. |
| PyText.SplitCons | parser.py:121 | A token followed by a space splits into that token and the tokens of the rest. |
| PyText.SplitFirst | parser.py:137 | `split(None, 1)` yields at most two parts: a token, and a remainder that starts with no whitespace. |
| PyText.SplitFirstAgrees | parser.py:137-139 | `split(None, 1)` agrees with `split()`: its first part is the first token, and its second part splits into the remaining tokens. |
| PyText.SplitOnce | parser.py:132 | `s.split(sep, 1)`: the whole text when `sep` does not occur, otherwise the text before and after its first occurrence. `PyText.SplitOnceParts` states this. |
| PyText.SplitOnceParts | parser.py:132 | `split(';', 1)` gives one part, the whole line, exactly when there is no `;`. Otherwise it gives the text before the first `;` and the text after it. |
| PyText.SplitOnceAt | parser.py:132 | The first `;` of `a + ";" + b`, with none in `a`, splits it into `a` and `b`. |
| PyNumbers.ParseInt | parser.py:151 | `int(s)` in base 10: an optional sign and a digit part with single underscores between digits, otherwise ValueError (`None`). `PyNumbers.ParseIntRoundTrip` pins it down. |
| PyNumbers.ParseFloat | parser.py:125 | `float(s)` on finite decimal literals: an optional sign, a mantissa and an optional exponent, otherwise ValueError (`None`). `PyNumbers.ParseFloatOfInt`, `PyNumbers.ParseFloatDecimal` and `PyNumbers.ParseFloatRejects` pin it down. |
| PyNumbers.Trunc | parser.py:103 | `int(x)` truncates toward zero. |
| PyNumbers.RoundHalfEven | parser.py:235 | The result is within 1/2 of the input, and a tie goes to the even neighbour. |
| PyNumbers.Round5 | parser.py:235 | `round(x, 5)` is within half a hundred-thousandth of `x`. |
| PyNumbers.Round5OnGrid | parser.py:235 | `round(x, 5)` is a whole number of hundred-thousandths, and on a tie it is an even number of them. With `PyNumbers.Round5` this fixes the value: the nearest point of the grid, ties to even. |
| PyNumbers.ParseIntRoundTrip | parser.py:151 | `int(str(n)) == n`. |
| PyNumbers.ParseFloatOfInt | parser.py:125 | `float(str(n)) == n`. |
| PyNumbers.ParseFloatDecimal | parser.py:125 | `float("w.f")` of plain digits is the value of `w` plus that of `f`, shifted right by the number of digits of `f`. |
| PyNumbers.SignedFloat | parser.py:125 | A leading `-` negates a literal, and no sign leaves it as it is. |
| PyNumbers.ParseFloatRejects | parser.py:124-127 | `float` raises ValueError on text holding a character outside digits, `_`, `.`, `e`, `E`, `+` and `-`. |
| PyNumbers.FloatTextOfParsed | parser.py:124-127 | Text that `float` accepts holds only those characters. |
| PyNumbers.ParseFloatEmpty | parser.py:124-127 | `float('')` raises ValueError. |
| Scenarios.ReanchorThenSameTarget | parser.py:92-98 | `G92 X5` then `G1 X5 E1` from the start: X is re-anchored at 5 with offset -5, the move targets the position the head already has, and no segment is emitted. |
| Scenarios.SameTargetAfterReanchor | parser.py:76-81 | In absolute mode, re-anchoring X at `v` and then moving to X `v` emits no segment. |
| Scenarios.TwoExtrusions | parser.py:168-199 | `G1 X10 Y0 Z0 E1` then `G1 X20 Y0 Z0 E1` from the start give two segments, at (10, 0, 0) and (20, 0, 0). Both are classified `extrude`, in layer 0. |
| Scenarios.TwoMoves | parser.py:44-81 | Two moves along X with E 1, from the origin in absolute mode, append one segment each, at their targets. |
| Scenarios.FlatExtrusions | parser.py:180-197 | Two segments that move, have positive E and stay at height 0 are both `extrude` in layer 0. |
| Scenarios.LayerChange | parser.py:168-202 | An extrusion at height 0, a travel up to a new height and an extrusion there are styled extrude, travel, extrude. The travel opens layer 1, so the layers are the first segment and then the other two. |
| Scenarios.TenByThree | parser.py:221-245 | A move of length 10 from the origin with threshold 3 becomes three sub-segments, at X 10/3, 20/3 and 10, each with E `round(E / 3, 5)`. |
| Scenarios.ArgsXYZE | parser.py:118-129 | The arguments `X<n> Y0 Z0 E1` decode to X `n`, Y 0, Z 0 and E 1. |

## Left out

- The Blender side of `parser.py` is not part of this model: `create_continuous_curve`, `create_split_layers`, `segments_to_meshdata` and `create_filament_object` only build scene objects. Neither are `__init__.py` and `script.py`, which are user-interface and node-graph glue.
- File reading is not modelled: the file is the sequence of its lines, each with its line terminator still attached, which `rstrip` removes.
- The printing in `GcodeParser.warn` and `GcodeParser.error` is not modelled. The model never calls them: the `warn` calls of `GcodeModel` raise before reaching any method.
- `GcodeModel.parseFile` (parser.py:157-163) is modelled as `Parser.GcodeModel.ParseFile` with the file given as lines. `GcodeParser.parseFile` (parser.py:352-358) has its own loop in the source. The model's `Parser.GcodeParser.ParseFile` calls `Parser.GcodeModel.ParseFile` instead, because the two source loops do the same thing line by line.
- `self.parser` is passed as a parameter to the methods that read or write the parser's fields, rather than stored in the model.
- Segment objects are values: the classifier and the subdivider replace list entries instead of mutating shared objects. The aliasing between `segments` and `layers` (the same objects in both lists) is therefore not represented.
- `np.linspace` over the five coordinate entries also interpolates F and E, but the code keeps only X, Y and Z of each sample, so only those are modelled.
- `Parser.GcodeModel.DoM163`: evaluating `comment[:3]` is modelled as never changing the RGB entries. No expression of at most three characters that `eval` can evaluate in the scope of `do_M163` yields a three-element list or tuple, so the slice never produces one.
- `Parser.GcodeModel.DoG92`: the source updates the axes one by one and raises at the first unknown letter, keeping the axes updated before it. The model checks all the letters first and changes nothing when one is unknown.
- `Motion.Move`: the unknown-axis error carries the whole set of unknown letters rather than the first one in dictionary order. The raise itself, and the fact that nothing changes, are exact.
- Floating-point rounding is not modelled: arithmetic is on exact reals, and `float()` text is read exactly. Special float values (`inf`, `nan`) and non-ASCII digits and whitespace are not modelled.
- `Subdivider.DistSq`: the contract states only that the distance is zero for equal positions, not the converse.
- `Subdivider.SubdivCount`: on exact reals a move longer than the threshold always gets at least two samples. Floating-point `ceil(d / t)` could in principle round to 1 for a move a hair longer than the threshold, which would divide E by zero. The model does not capture that edge.
- The distance is stored squared (`distanceSq`), since `math.sqrt` has no exact counterpart on reals.
- The threshold is required positive: the add-on's setting for it has a minimum of 0.1.
