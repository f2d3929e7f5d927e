# gravitymania core, in Dafny

gravitymania is a small two-player platformer built on XNA. This project
models the sequential logic around its rendering and its floating-point
collision solver, and proves what that logic promises. The modelled parts
are:

- **The tile layer.** Collision templates per tile type, tile ranges in
  row-major order, the `TileMap` grid with its out-of-range sentinel, and the
  loader that reads a level from a digit string, top row first.
- **Exact geometry.** Axis-aligned boxes, line segments and the equation of a
  line (before normalisation), the clamps, and the centroid. All of it is
  over `real`.
- **First-collision selection.** This covers the swept bounds of a moving
  ellipse and the earliest accepted hit among the segments of the tiles it
  sweeps. The per-segment solver is a function parameter.
- **The player update.** Run left/right, jump with a kick to the other
  player, gravity coupled to the other player, and the floor clamp.
- **The in-game console.** This covers:
  - the command-line tokenizer with quotes and escapes;
  - the input line with its caret;
  - scrollback and command history;
  - the key-repeat reader;
  - the console's per-frame key handling;
  - the stack of command executors;
  - the root command table.
- **The reference-counted asset manager.** Pending load/unload queues that
  are settled by a refresh step.
- **Input bookkeeping.** This covers:
  - modifier flags and the US keyboard map with its reverse lookup;
  - the value-equality key types;
  - the per-player input frame;
  - the hold-event generator and the generator/listener registry;
  - GUI edge detection;
  - the frame-advance and frame-skip manager.

There is one Dafny module per source file. Objects whose fields the game
updates in place are classes. Each of their methods is proved against a
function on a datatype snapshot of those fields (`State()`), and the
periodic and order-dependent behaviour is proved as lemmas about those
functions. The modules `Wrappers` (Option/Result), `Vectors` (the XNA
`Vector2` over reals), `XnaKeys` (key codes), `IgnoreCase` (ordinal
case-insensitive comparison) and `InputStates` (a keyboard/mouse/pad
snapshot) stand in for the .NET and XNA types the core uses.

## Model

| member | source | states |
|---|---|---|
| BoundingBoxes.AABBox.AddInternalPoint | gravitymania/math/AABBox.cs:49-53 | the grown box contains the point, is well formed, and still contains every point it contained |
| BoundingBoxes.AABBox.AddBox | gravitymania/math/AABBox.cs:55-59 | the grown box encloses the other box, is well formed, and still contains every point it contained |
| BoundingBoxes.AABBox.Translate | gravitymania/math/AABBox.cs:43-47 | p is contained before iff p+diff is contained after; well-formedness is preserved both ways |
| BoundingBoxes.FromCorners | gravitymania/math/AABBox.cs:21-29 | Min and Max are the componentwise min and max of the two corners in either order, so the box is well formed and contains both |
| BoundingBoxes.FromCornersSymmetric | gravitymania/math/AABBox.cs:21-29 | swapping the two corner arguments gives the same box |
| BoundingBoxes.AddInternalPointSmallest | gravitymania/math/AABBox.cs:49-53 | the grown box is the least one: any box enclosing the old box and the point encloses it |
| BoundingBoxes.BuildBox | gravitymania/math/AABBox.cs:31-41 | the loop's result is well formed, contains the origin (the default start box) and every input point, and each bound is 0 or a coordinate of some input point |
| BoundingBoxes.OverlapsSymmetric | gravitymania/math/AABBox.cs:66-69 | Overlaps(a,b) == Overlaps(b,a) |
| BoundingBoxes.OverlapsSound | gravitymania/math/AABBox.cs:66-69 | when the as-written corner test says two well-formed boxes overlap, they do share a point |
| BoundingBoxes.OverlapsMissesCrossing | gravitymania/math/AABBox.cs:66-69 | two crossing boxes that share a region are reported as not overlapping |
| BoundingBoxes.IntersectsIffCommonPoint | gravitymania/math/AABBox.cs:66-69 | the corrected interval test holds iff the two well-formed boxes share a point |
| Line2d.LineEquation.MultiplyThrough | gravitymania/math/Line2d.cs:32-35 | A*x + B*y + C as the normal's dot product with the point plus C |
| Line2d.FromPointNormal | gravitymania/math/Line2d.cs:16-22 | the equation keeps the normal, is zero at the point, and equals the dot product of the normal with p minus the point |
| Line2d.LineSegment.LengthSquared | gravitymania/math/Line2d.cs:76-79 | the squared length is non-negative, and zero for a degenerate segment |
| Line2d.LineSegment.RawEquation | gravitymania/math/Line2d.cs:86-96 | before the length division the normal is LeftHandNormal and the equation vanishes at Start and at End |
| Line2d.LineSegment.RightHandNormal | gravitymania/math/Line2d.cs:98-102 | perpendicular to End-Start and the exact negation of the left-hand normal |
| Line2d.LineSegment.LeftHandNormal | gravitymania/math/Line2d.cs:104-108 | perpendicular to End-Start, as long as the segment, and on its left: the cross product of End-Start with it is the squared length, which fixes it as (-d.Y, d.X) for a non-degenerate segment |
| Line2d.RawEquationOnLine | gravitymania/math/Line2d.cs:86-96 | the raw equation vanishes at every point of the line through the segment |
| Line2d.RawEquationSide | gravitymania/math/Line2d.cs:86-96 | the raw equation at p is the left-hand normal's dot product with p minus Start |
| Line2d.EndpointsWithinBoundingBox | gravitymania/math/Line2d.cs:110-116 | for a non-negative tolerance both endpoints pass WithinBoundingBox |
| Line2d.WithinBoundingBoxReversed | gravitymania/math/Line2d.cs:110-116 | swapping Start and End does not change WithinBoundingBox |
| Line2d.WithinBoundingBoxIsAABBox | gravitymania/math/Line2d.cs:110-116 | with zero tolerance WithinBoundingBox is containment in the box built from the two endpoints |
| NumTools.SameSign | gravitymania/math/NumTools.cs:10-13 | holds iff both are non-negative or both non-positive |
| NumTools.DifferentSign | gravitymania/math/NumTools.cs:15-18 | holds iff one is strictly positive and the other strictly negative |
| NumTools.ProductSign | gravitymania/math/NumTools.cs:10-13 | the product test used by SameSign is non-negative iff the signs agree |
| NumTools.SignTestsComplementary | gravitymania/math/NumTools.cs:10-18 | exactly one of SameSign and DifferentSign holds |
| NumTools.Min | gravitymania/math/NumTools.cs:20-30 | the loop's result is at most every argument and equal to one of them |
| NumTools.ClampInt | gravitymania/math/NumTools.cs:57-60 | in range when min<=max; the value itself when already in range; min when below or when min>max; max when above |
| NumTools.ClampFloat | gravitymania/math/NumTools.cs:62-65 | the same four cases for the float overload, over reals |
| NumTools.ClampIntIdempotent | gravitymania/math/NumTools.cs:57-60 | clamping twice is clamping once |
| NumTools.ClampFloatIdempotent | gravitymania/math/NumTools.cs:62-65 | clamping twice is clamping once |
| MathUtil.Clamp | gravitymania/math/MathUtil.cs:10-24 | below lo gives lo; above hi (and not below lo) gives hi; in range gives the value; with lo<=hi the result is in range |
| MathUtil.ClampAgreesWithNumTools | gravitymania/math/MathUtil.cs:10-24 | the two clamps differ exactly when hi < lo <= val, where this one gives hi and NumTools gives lo |
| VectorTools.GetCentroid | gravitymania/math/VectorTools.cs:11-30 | the accumulating loop computes the centroid: (0,0) for no vertices, else the sum divided by the count |
| VectorTools.SumOfCopies | gravitymania/math/VectorTools.cs:17-22 | n copies of v sum to n*v |
| VectorTools.CentroidOfCopies | gravitymania/math/VectorTools.cs:17-27 | one or more copies of v have centroid v |
| VectorTools.CentroidOfOne | gravitymania/math/VectorTools.cs:17-27 | a single vertex is its own centroid |
| VectorTools.CentroidTimesCount | gravitymania/math/VectorTools.cs:17-27 | for a non-empty sequence the centroid times the count is the sum |
| Tiles.GetGeometryTemplate | gravitymania/map/TileMap.cs:70-73 | a template exists iff the code is one of the six types, and every template endpoint is a tile-local corner |
| Tiles.CornersAreLocal | gravitymania/map/TileMap.cs:25-31 | every template corner lies within the 16x16 tile |
| Tiles.TemplateSizes | gravitymania/map/TileMap.cs:32-67 | Empty has no segments, SolidBox has 4, and each wedge has 3 |
| Tiles.SolidBoxAsWritten | gravitymania/map/TileMap.cs:30-42 | with topRight written as (16,0) the first SolidBox segment is a diagonal and the second is degenerate |
| Tiles.TileRange.IterateTiles | gravitymania/map/TileMap.cs:107-116 | yields exactly the tiles of the range, in ascending row-major order with no repeats, and nothing for an empty range |
| Tiles.SortedIsDuplicateFree | gravitymania/map/TileMap.cs:107-116 | a row-major ordered sequence has no repeated tile |
| Tiles.IterateTilesLength | gravitymania/map/TileMap.cs:107-116 | a non-empty range yields (Top-Bottom+1)*(Right-Left+1) tiles |
| Tiles.Floor | gravitymania/map/TileMap.cs:163-169 | Math.Floor: the greatest integer not above z |
| Tiles.Ceiling | gravitymania/map/TileMap.cs:163-169 | Math.Ceiling: the least integer not below z |
| Tiles.RowMajorDivMod | gravitymania/map/TileMap.cs:136-139 | a row-major index divides back into its row and column |
| Tiles.TileMap.constructor | gravitymania/map/TileMap.cs:129-134 | a width x height grid of Empty tiles |
| Tiles.TileMap.Index2d | gravitymania/map/TileMap.cs:136-139 | for an in-range cell the index is in the array and divides back into (x, y) |
| Tiles.TileMap.Index2dInjective | gravitymania/map/TileMap.cs:136-144 | distinct in-range cells have distinct indices |
| Tiles.TileMap.Index2dOnto | gravitymania/map/TileMap.cs:136-144 | every array slot is the index of an in-range cell |
| Tiles.TileMap.GetTile | gravitymania/map/TileMap.cs:146-156 | out of range gives the Empty sentinel; in range gives the stored tile |
| Tiles.TileMap.SetTile | gravitymania/map/TileMap.cs:158-161 | writes the one slot, so GetTile returns the new tile there and every other cell is unchanged |
| Tiles.TileMap.GetTileRange | gravitymania/map/TileMap.cs:163-169 | Left/Bottom are the floor and Right/Top the ceiling of the box corners divided by 16 |
| Tiles.TileMap.GetTileBox | gravitymania/map/TileMap.cs:171-179 | spans from the corner of tile (x,y) to the corner of tile (x+1,y+1), and is well formed |
| Tiles.TileMap.GetTileOffset | gravitymania/map/TileMap.cs:181-184 | the offset lies in tile (x,y) |
| Tiles.TileMap.TileOffsetIsCorner | gravitymania/map/TileMap.cs:181-184 | the offset is below and left of every point of tile (x,y), so it is that tile's corner (16x, 16y) |
| Tiles.TileMap.GetTileGeometry | gravitymania/map/TileMap.cs:189-198 | empty for an Empty tile, otherwise the untranslated template, and missing (the array-index error) for an unknown code |
| Tiles.TileMap.GeometryIgnoresPosition | gravitymania/map/TileMap.cs:189-198 | the geometry depends only on the tile, not on where it is: no offset and no neighbour culling |
| Tiles.TileMap.TileRangeCoversBox | gravitymania/map/TileMap.cs:163-169 | the range of a box contains the tile of every point in the box |
| Tiles.TileMap.TileBoxRange | gravitymania/map/TileMap.cs:163-184 | the range of a tile's own box is that tile to the next one up and right |
| Tiles.TextPosition | gravitymania/map/TileMap.cs:240-256 | character i lands in column i mod width of row height-1-i div width, with collision char - '0' |
| Tiles.LoadFromText | gravitymania/map/TileMap.cs:240-256 | succeeds iff the text has width*height characters, and every cell holds its character's code, top row first |
| Tiles.LoadExample | Tests/map/TestLoadMap.cs:15-22 | "0000111101011010" as 4x4 gives SolidBox, Empty, SolidBox, Empty up column 0 |
| GameCollision.MovingBounds | gravitymania/collision/GameCollision.cs:31-40 | the swept box contains the rough bounds and the rough bounds moved by the velocity |
| GameCollision.Candidates | gravitymania/collision/GameCollision.cs:63-67 | one solver result per segment, each tested with velocity Velocity*(1-currentTime) |
| GameCollision.GetFirstCollision | gravitymania/collision/GameCollision.cs:52-86 | the nested loops compute the first least-time accepted hit over the swept tiles, segment by segment |
| GameCollision.GetFirstCollisionFrom | gravitymania/collision/GameCollision.cs:42-45 | the current-time overload uses a zero disallowed normal |
| GameCollision.GetFirstCollisionExcept | gravitymania/collision/GameCollision.cs:47-50 | the disallowed-normal overload ignores its normal and starts at time 0 |
| GameCollision.ZeroNormalAcceptsEveryHit | gravitymania/collision/GameCollision.cs:67-80 | with a zero normal a candidate is accepted iff the solver reports a hit |
| GameCollision.NothingAccepted | gravitymania/collision/GameCollision.cs:56-85 | when no candidate is accepted the result is no hit at time 0 |
| GameCollision.SelectsFirstEarliest | gravitymania/collision/GameCollision.cs:67-80 | a hit is found iff some candidate is accepted; the result is an accepted candidate with time at most every accepted one, and earlier accepted candidates are strictly later |
| GameCollision.SegmentsFailurePersists | gravitymania/collision/GameCollision.cs:59-63 | an unknown tile code anywhere in the range makes the whole query fail |
| GameCollision.SegmentsAreTileLocal | gravitymania/collision/GameCollision.cs:61-67 | every tested segment is in tile-local coordinates, because the offset is never applied |
| Players.BoundsOf | gravitymania/player/Player.cs:39-45 | the box from Position-HalfWidth to Position+HalfWidth is well formed and its bottom is Position.Y-abs(HalfWidth.Y) |
| Players.BoundsContain | gravitymania/player/Player.cs:39-45 | a point is in the bounds iff it is within abs(HalfWidth) of Position on both axes |
| Players.AdvanceHorizontal | gravitymania/player/Player.cs:49-63 | horizontal speed is -5 with LEFT held, else 5 with RIGHT, else 0 |
| Players.AdvanceStaysAboveFloor | gravitymania/player/Player.cs:104-110 | with a non-negative half-height the bounds never end below 0 |
| Players.AdvanceMoves | gravitymania/player/Player.cs:102-110 | the position moves by the new velocity, unless the floor clamp stops and grounds the player at HalfWidth.Y |
| Players.AdvanceJump | gravitymania/player/Player.cs:65-80 | a grounded player holding JUMP leaves the ground at speed 10, unless the jump still lands below the floor |
| Players.AdvanceVertical | gravitymania/player/Player.cs:65-100 | grounded without JUMP keeps its vertical speed; airborne falls by 0.5; only the clamp zeroes it |
| Players.Player.constructor | gravitymania/player/Player.cs:25-37 | at rest and grounded at the given position, with no key down |
| Players.Player.Bounds | gravitymania/player/Player.cs:39-45 | the bounds of the current position and half-width |
| Players.Player.Update | gravitymania/player/Player.cs:47-111 | the player's new state is Advance of its old state and its keys; each other player's vertical speed changes by the kick once per slot it holds, only if airborne |
| Players.Player.Accelerate | gravitymania/player/Player.cs:65-100 | the jump and gravity step, with the kick to the other players |
| Players.Player.Steer | gravitymania/player/Player.cs:49-63 | sets only the horizontal speed from LEFT and RIGHT |
| Players.Player.LandOnFloor | gravitymania/player/Player.cs:102-110 | moves by the velocity, then applies the floor clamp |
| Players.Player.KickOthers | gravitymania/player/Player.cs:72-97 | changes only the other players' vertical speed, and only when they are airborne |
| ConsoleParser.ParseCommandLine | gravitymania/console/ConsoleParser.cs:53-85 | the character loop computes Parse: the tokens, or the malformed-command failure |
| ConsoleParser.NoEmptyTokens | gravitymania/console/ConsoleParser.cs:59-83 | no token is empty |
| ConsoleParser.SpacesOnlyGiveNothing | gravitymania/console/ConsoleParser.cs:57-64 | an empty or all-space line gives no tokens |
| ConsoleParser.PlainLineSplitsAtSpaces | gravitymania/console/ConsoleParser.cs:57-76 | a line without quotes or backslashes splits at spaces: the tokens hold no space and concatenate to the line without its spaces |
| ConsoleParser.DoubleQuotedIsOneToken | gravitymania/console/ConsoleParser.cs:65-76 | a double-quoted text with no special character is one token, spaces kept, quotes dropped |
| ConsoleParser.SingleQuotedIsOneToken | gravitymania/console/ConsoleParser.cs:69-76 | a single-quoted text with no special character is one token, spaces kept, quotes dropped |
| ConsoleParser.EscapeSequences | gravitymania/console/ConsoleParser.cs:23-49 | a backslash and n, t, backslash, quote, apostrophe or space gives that character; anything else fails |
| ConsoleParser.TrailingBackslashDropped | gravitymania/console/ConsoleParser.cs:53-85 | a trailing lone backslash is silently dropped |
| ConsoleParser.StepFails | gravitymania/console/ConsoleParser.cs:45-46 | a character fails iff it follows a backslash and is not a known escape |
| ConsoleParser.FailsIffMalformedEscape | gravitymania/console/ConsoleParser.cs:45-85 | the parse fails iff some position holds an unknown escape after an unescaped backslash |
| ConsoleInputLines.ClampCaret | gravitymania/console/ConsoleInputLine.cs:14-18 | the caret is clamped into [0, length of the text] |
| ConsoleInputLines.WithCaret | gravitymania/console/ConsoleInputLine.cs:14-18 | the setter keeps the text and re-clamps the caret |
| ConsoleInputLines.WithText | gravitymania/console/ConsoleInputLine.cs:20-24 | the setter stores the text (null as "") and re-clamps the caret |
| ConsoleInputLines.Edited | gravitymania/console/ConsoleInputLine.cs:33-62 | every edit keeps the caret within the text |
| ConsoleInputLines.CaretMoves | gravitymania/console/ConsoleInputLine.cs:37-48 | Home and End put the caret at 0 and at the end, Left and Right move it by one clamped, and the text is unchanged |
| ConsoleInputLines.BackspaceRemovesBefore | gravitymania/console/ConsoleInputLine.cs:72-79 | after the caret at 0 nothing changes; otherwise the character before the caret goes and the caret steps back |
| ConsoleInputLines.DeleteRemovesAt | gravitymania/console/ConsoleInputLine.cs:64-70 | at the end nothing changes; otherwise the character at the caret goes and the caret stays |
| ConsoleInputLines.TypingInserts | gravitymania/console/ConsoleInputLine.cs:58-94 | another key inserts its mapped character at the caret and advances it; a control character (including the unmapped '\0') changes nothing |
| ConsoleInputLines.SpaceInserts | gravitymania/console/ConsoleInputLine.cs:81-85 | Space inserts ' ' at the caret and advances it |
| ConsoleInputLines.BackspaceUndoesTyping | gravitymania/console/ConsoleInputLine.cs:72-94 | typing a printable character and then Back restores the line |
| ConsoleInputLines.LeftDeleteUndoesTyping | gravitymania/console/ConsoleInputLine.cs:43-94 | typing a printable character, then Left and Delete, restores the line |
| ConsoleInputLines.ConsoleInputLine.constructor | gravitymania/console/ConsoleInputLine.cs:26-31 | empty text, caret 0, the given key map |
| ConsoleInputLines.ConsoleInputLine.SetCaretPosition | gravitymania/console/ConsoleInputLine.cs:14-18 | the state becomes WithCaret of the old state |
| ConsoleInputLines.ConsoleInputLine.SetText | gravitymania/console/ConsoleInputLine.cs:20-24 | the state becomes WithText of the old state |
| ConsoleInputLines.ConsoleInputLine.Update | gravitymania/console/ConsoleInputLine.cs:33-62 | the state becomes Edited of the old state, with the key map's character for the key and modifiers |
| ConsoleInputLines.ConsoleInputLine.DeleteCharAtCaret | gravitymania/console/ConsoleInputLine.cs:64-70 | the state becomes the delete edit of the old state |
| ConsoleInputLines.ConsoleInputLine.BackspaceCharAtCaret | gravitymania/console/ConsoleInputLine.cs:72-79 | the state becomes the backspace edit of the old state |
| ConsoleInputLines.ConsoleInputLine.InsertSpaceAtCaret | gravitymania/console/ConsoleInputLine.cs:81-85 | the state becomes the old one with ' ' inserted at the caret |
| ConsoleInputLines.ConsoleInputLine.InsertCharAtCaret | gravitymania/console/ConsoleInputLine.cs:87-94 | the state becomes the old one with the character inserted, or unchanged for a control character |
| ConsoleHistories.Split | gravitymania/console/ConsoleHistory.cs:65-74 | String.Split on one separator: at least one piece, none containing the separator, and joining them back gives the text |
| ConsoleHistories.SplitWithoutSeparator | gravitymania/console/ConsoleHistory.cs:65-74 | a text without the separator is one piece |
| ConsoleHistories.ConsoleHistory.constructor | gravitymania/console/ConsoleHistory.cs:38-45 | both buffers empty, location 0, current command 0, window 1 |
| ConsoleHistories.ConsoleHistory.SetCurrentCommand | gravitymania/console/ConsoleHistory.cs:14-21 | clamped to [0, number of commands] |
| ConsoleHistories.ConsoleHistory.SetHistoryLocation | gravitymania/console/ConsoleHistory.cs:23-30 | clamped to [0, lines - window], 0 when that bound is negative |
| ConsoleHistories.ConsoleHistory.SetHistoryWindowSize | gravitymania/console/ConsoleHistory.cs:32-36 | never negative |
| ConsoleHistories.ConsoleHistory.GetCurrentCommand | gravitymania/console/ConsoleHistory.cs:47-57 | "" past the last command, else the selected command |
| ConsoleHistories.ConsoleHistory.GetHistoryWindow | gravitymania/console/ConsoleHistory.cs:59-63 | min(lines - location, window) consecutive lines starting at the location |
| ConsoleHistories.ConsoleHistory.ScrollToMostRecent | gravitymania/console/ConsoleHistory.cs:70-74 | the location becomes max(0, lines - window) |
| ConsoleHistories.ConsoleHistory.InsertEcho | gravitymania/console/ConsoleHistory.cs:65-74 | appends each line-separated piece and scrolls to the most recent lines |
| ConsoleHistories.ConsoleHistory.InsertCommand | gravitymania/console/ConsoleHistory.cs:76-81 | appends the command, selects past the last one, and echoes "> " + command |
| ConsoleHistories.ConsoleHistory.ClearEchoHistory | gravitymania/console/ConsoleHistory.cs:83-87 | empties the echo lines and resets the location, keeping the commands |
| ConsoleHistories.HistoryScroll | Tests/console/TestConsoleHistory.cs:100-128 | with window 5, echoes put the location at count-5; scrolling back and forward moves it by one; clearing resets it to 0 |
| ConsoleKeyReaders.Except | gravitymania/console/ConsoleKeyReader.cs:32 | Enumerable.Except: the distinct keys of the first list that are not in the second |
| ConsoleKeyReaders.ExceptSelf | gravitymania/console/ConsoleKeyReader.cs:32-34 | an unchanged keyboard has no new key |
| ConsoleKeyReaders.NewKeyTakesFocus | gravitymania/console/ConsoleKeyReader.cs:44-76 | exactly one new key becomes the focus with held time 0 and a pending initial press, and fires at once |
| ConsoleKeyReaders.FocusDropped | gravitymania/console/ConsoleKeyReader.cs:48-51 | releasing the focus with no new key, or pressing two or more new keys, drops the focus |
| ConsoleKeyReaders.InitialDelay | gravitymania/console/ConsoleKeyReader.cs:34-43 | a freshly pressed key held still is silent for InitialKeyRepeat-1 updates and fires on the next, switching to the held repeat |
| ConsoleKeyReaders.HeldRepeat | gravitymania/console/ConsoleKeyReader.cs:34-43 | once repeating, the key is silent for HeldKeyRepeat-1 updates and the state returns to its start after HeldKeyRepeat |
| ConsoleKeyReaders.HoldAdd | gravitymania/console/ConsoleKeyReader.cs:26-54 | m+n updates with the same keys are m updates and then n more |
| ConsoleKeyReaders.HeldRepeatPeriodic | gravitymania/console/ConsoleKeyReader.cs:34-59 | a repeating key fires on every multiple of HeldKeyRepeat |
| ConsoleKeyReaders.ConsoleKeyReader.constructor | gravitymania/console/ConsoleKeyReader.cs:15-122 | repeat delays 25 and 2, no keys, no focus |
| ConsoleKeyReaders.ConsoleKeyReader.Update | gravitymania/console/ConsoleKeyReader.cs:26-54 | the state becomes Next of the old state for the given keys, recording them as the last state |
| ConsoleKeyReaders.ConsoleKeyReader.GetCurrentKey | gravitymania/console/ConsoleKeyReader.cs:56-59 | the focus key on the updates where its held time is 0, else no key |
| ConsoleKeyReaders.ConsoleKeyReader.IsInitialPress | gravitymania/console/ConsoleKeyReader.cs:61-64 | whether the focus is still waiting for its first repeat |
| ConsoleKeyReaders.ConsoleKeyReader.GetModifiers | gravitymania/console/ConsoleKeyReader.cs:66-69 | the modifiers of the keys recorded at the last update |
| ConsoleKeyReaders.ConsoleKeyReader.SetFocusKey | gravitymania/console/ConsoleKeyReader.cs:71-76 | the key becomes the focus with held time 0 and a pending initial press |
| GameConsoles.ActionFor | gravitymania/console/GameConsole.cs:75-121 | closed: only the open key acts; open: Escape, Enter, Up, Down, PageUp and PageDown have their own actions and every other key edits the line |
| GameConsoles.BlinkPeriod | gravitymania/console/GameConsole.cs:103-108 | from a reset counter the caret keeps its state for rate-1 edits and toggles on the rate-th |
| GameConsoles.BlinkEveryUpdate | gravitymania/console/GameConsole.cs:103-108 | with a rate of 0 or 1 the caret toggles on every edit |
| GameConsoles.GameConsole.constructor | gravitymania/console/GameConsole.cs:41-195 | closed, blink rate 30, scroll 1, 8 visible lines, empty history and input, US key map |
| GameConsoles.GameConsole.SetNumVisibleLines | gravitymania/console/GameConsole.cs:25-29 | the history window becomes the value clamped to [0, 15] |
| GameConsoles.GameConsole.PrintLine | gravitymania/console/GameConsole.cs:58-61 | the history's echo insert |
| GameConsoles.GameConsole.ClearScreen | gravitymania/console/GameConsole.cs:63-66 | the history's echo clear |
| GameConsoles.GameConsole.Update | gravitymania/console/GameConsole.cs:69-122 | the key reader steps; then by ActionFor the console opens (scrolled to most recent, caret reset), closes, issues the line (entered = its text), recalls a command, scrolls, or edits the line and blinks; closed, other keys change nothing; the repeat delays and the key map stay |
| GameConsoles.GameConsole.IssueInput | gravitymania/console/GameConsole.cs:80-84 | inserts the line as a command, returns its text as entered, and clears the line |
| GameConsoles.GameConsole.RecallCommand | gravitymania/console/GameConsole.cs:85-94 | moves the selected command by delta (clamped), loads it into the line and puts the caret at its end |
| ConsoleDispatchers.RemoveFirst | gravitymania/console/ConsoleDispatcher.cs:35-38 | List.Remove: unchanged if absent, else the first occurrence is cut out |
| ConsoleDispatchers.RemoveFirstMultiset | gravitymania/console/ConsoleDispatcher.cs:35-38 | removal takes exactly one copy of the executor |
| ConsoleDispatchers.Dispatch | gravitymania/console/ConsoleDispatcher.cs:40-48 | no more executors are called than are on the stack |
| ConsoleDispatchers.DispatchStopsAtFirstAccept | gravitymania/console/ConsoleDispatcher.cs:40-48 | executors are called top-down; every called one but the last declined, and the last accepted or was the bottom |
| ConsoleDispatchers.DispatchWithoutAccept | Tests/console/TestAddRemoveDispatcher.cs:56-85 | if none accepts, every executor receives the command |
| ConsoleDispatchers.DispatchAboveAccept | Tests/console/TestAddRemoveDispatcher.cs:56-85 | executors below an accepting one are never called |
| ConsoleDispatchers.ConsoleDispatcher.constructor | gravitymania/console/ConsoleDispatcher.cs:12-15 | an empty stack |
| ConsoleDispatchers.ConsoleDispatcher.PushDispatcher | gravitymania/console/ConsoleDispatcher.cs:17-20 | appends on top |
| ConsoleDispatchers.ConsoleDispatcher.PopDispatcher | gravitymania/console/ConsoleDispatcher.cs:22-33 | removes and returns the top, or returns nothing for an empty stack |
| ConsoleDispatchers.ConsoleDispatcher.RemoveDispatcher | gravitymania/console/ConsoleDispatcher.cs:35-38 | removes the first occurrence and reports whether there was one |
| ConsoleDispatchers.ConsoleDispatcher.RunDispatchers | gravitymania/console/ConsoleDispatcher.cs:40-48 | the loop calls exactly Dispatch of the stack |
| ConsoleDispatchers.DispatcherScenario | Tests/console/TestAddRemoveDispatcher.cs:25-86 | the test's push/remove/run sequence calls [a], then [b, a], then [b], then [c] |
| RootConsoleExecutors.Lookup | gravitymania/main/RootConsoleExecutor.cs:18-25 | finds the command whose name equals the token ignoring case, and nothing iff no name does |
| RootConsoleExecutors.NamesDistinctIgnoringCase | gravitymania/main/RootConsoleExecutor.cs:18-25 | no token names two commands |
| RootConsoleExecutors.LookupIgnoresCase | gravitymania/main/RootConsoleExecutor.cs:18-25 | any upper/lower-case spelling of a name finds its command |
| RootConsoleExecutors.RunCommand | gravitymania/main/RootConsoleExecutor.cs:33-46 | fails iff the parser fails; accepted iff there is a first token naming a command, whose handler's effects are the outcome; otherwise nothing happens |
| RootConsoleExecutors.CloseAndClear | gravitymania/main/RootConsoleExecutor.cs:66-74 | "close" closes the console and "clear" clears its screen, in any case |
| IgnoreCase.FoldString | gravitymania/asset/AssetManager.cs:17-19 | the dictionary key: the name folded character by character |
| IgnoreCase.FoldStringIsKey | gravitymania/asset/AssetManager.cs:17-19 | two names have the same key iff they are equal ignoring case |
| IgnoreCase.Compare | gravitymania/asset/Asset.cs:28-31 | the comparison is -1, 0 or 1 |
| IgnoreCase.CompareZeroIffEqual | gravitymania/asset/Asset.cs:28-31 | 0 iff the names are equal ignoring case |
| IgnoreCase.CompareAntisymmetric | gravitymania/asset/Asset.cs:28-31 | swapping the names negates the result |
| IgnoreCase.CompareTransitive | gravitymania/asset/Asset.cs:28-31 | the order is transitive |
| Assets.Asset.constructor | gravitymania/asset/Asset.cs:12-14 | unnamed, unreferenced, unmanaged, not loaded |
| Assets.Asset.Grab | gravitymania/asset/Asset.cs:16-19 | exactly the manager's non-immediate grab of this asset |
| Assets.Asset.Drop | gravitymania/asset/Asset.cs:21-24 | exactly the manager's drop of this asset |
| Assets.Asset.CompareTo | gravitymania/asset/Asset.cs:28-31 | 0 iff the names are equal ignoring case, and the negation of the reverse comparison |
| Assets.AssetManager.constructor | gravitymania/asset/AssetManager.cs:17-23 | no assets, both queues empty |
| Assets.AssetManager.GetAsset | gravitymania/asset/AssetManager.cs:87-98 | an asset iff the name is registered (ignoring case), and it is one of the managed assets |
| Assets.AssetManager.GetAssetIgnoresCase | gravitymania/asset/AssetManager.cs:87-98 | names equal ignoring case find the same asset, or both none |
| Assets.AssetManager.AddAsset | gravitymania/asset/AssetManager.cs:54-67 | fails on a registered name; otherwise registers the asset under the name with this manager and reference count 0, and GetAsset(name) then returns that asset |
| Assets.AssetManager.RemoveAsset | gravitymania/asset/AssetManager.cs:69-85 | fails on an unknown name; otherwise unloads a referenced asset, unregisters it, and resets its count and manager; either way GetAsset(name) then returns none and no other asset changes |
| Assets.AssetManager.GrabAsset | gravitymania/asset/AssetManager.cs:114-143 | adds one reference; an immediate grab of an unloaded asset loads it and dequeues it; otherwise the first reference cancels a pending unload or queues a load |
| Assets.AssetManager.GrabAssetNamed | gravitymania/asset/AssetManager.cs:105-112 | fails on an unknown name with every asset and queue unchanged, else grabs the registered asset, keeping its name and manager, and leaves the other assets unchanged |
| Assets.AssetManager.DropAsset | gravitymania/asset/AssetManager.cs:152-167 | removes one reference with no lower bound; dropping the last cancels a pending load or queues an unload |
| Assets.AssetManager.DropAssetNamed | gravitymania/asset/AssetManager.cs:145-150 | fails on an unknown name with every asset and queue unchanged, else drops the registered asset, keeping its name and manager, and leaves the other assets unchanged |
| Assets.AssetManager.RefreshAssets | gravitymania/asset/AssetManager.cs:26-47 | unloads queued assets with no references, loads queued assets with references, and empties both queues |
| Assets.AssetManager.UnloadQueued | gravitymania/asset/AssetManager.cs:28-36 | every queued unload of an unreferenced asset unloads it |
| Assets.AssetManager.LoadQueued | gravitymania/asset/AssetManager.cs:38-46 | every queued load of a referenced asset loads it |
| Assets.GrabDropLifecycle | Tests/asset/TestAssetManager.cs:41-92 | a grab takes effect only at refresh, and so does dropping the last reference |
| Assets.SwapReference | Tests/asset/TestAssetManager.cs:94-121 | dropping one asset and grabbing another in one frame swaps which is active after refresh |
| Assets.RemoveReferenced | Tests/asset/TestAssetManager.cs:123-130 | removing a referenced asset unloads it, resets its count, detaches it and unregisters the name |
| KeyModifiers.ModifiersOfFlags | gravitymania/input/KeyModifiers.cs:19-42 | Shift, Ctrl and Alt are set iff a left or right key of that kind is present, no other bit is set, and no keys give None |
| KeyModifiers.ModifiersOfDependsOnlyOnMembers | gravitymania/input/KeyModifiers.cs:19-42 | order and repeats of the keys do not matter |
| KeyModifiers.GetModifiers | gravitymania/input/KeyModifiers.cs:19-42 | the OR-ing loop computes ModifiersOf |
| KeymapKeys.Unmodified | gravitymania/input/KeymapKey.cs:14-17 | the one-argument constructor has no modifiers |
| KeymapKeys.EqualsIsEquality | gravitymania/input/KeymapKey.cs:25-33 | Equals holds iff modifiers and key agree, and equal keys hash equally |
| KeymapKeys.HashCodeInjective | gravitymania/input/KeymapKey.cs:30-33 | with a byte of modifiers and a non-negative key, equal hashes mean equal keys |
| KeyMaps.KeyMap.constructor | gravitymania/input/KeyMap.cs:11-26 | keeps the table; the reverse lookup is well defined for an unambiguous table |
| KeyMaps.KeyMap.GetCharacter | gravitymania/input/KeyMap.cs:33-44 | the table entry for the modifiers and key, or '\0' |
| KeyMaps.KeyMap.GetUnmodifiedCharacter | gravitymania/input/KeyMap.cs:28-31 | the character with no modifiers |
| KeyMaps.KeyMap.GetKeymapKey | gravitymania/input/KeyMap.cs:16-57 | a found combination types the character back and is not an excluded key; nothing iff no non-excluded entry types it |
| KeyMaps.KeyMap.ReverseInvertsTable | gravitymania/input/KeyMap.cs:18-57 | every non-excluded entry is found by its own character |
| KeyMaps.USKeyboardTableEntry | gravitymania/input/KeyMap.cs:62-174 | the US table holds exactly the plain and shifted characters of the keyboard |
| KeyMaps.USReverseOfEntry | gravitymania/input/KeyMap.cs:62-174 | each non-excluded US entry is the one source of its character |
| KeyMaps.USKeyboardUnambiguous | gravitymania/input/KeyMap.cs:62-174 | no character has two non-excluded sources, so the reverse map does not depend on iteration order |
| KeyMaps.USReverseLookup | gravitymania/input/KeyMap.cs:16-174 | on the US map the reverse lookup of an entry's character is that entry |
| KeyMaps.USKeyboardReverseLookups | Tests/input/TestKeyMap.cs:60-68 | 'a' is A, and '5' is D5 rather than NumPad5 |
| KeyMaps.USKeypadOperatorsSkipped | gravitymania/input/KeyMap.cs:16-21 | '*' is Shift+D8, '+' is Shift+OemPlus and '-' is OemMinus, never the keypad operators |
| KeyMaps.USKeyboardCharacters | Tests/input/TestKeyMap.cs:42-57 | A gives 'a' and 'A' with Shift, Multiply gives '*', and Ctrl+A gives '\0' |
| EventCodes.CodeOrdinal | gravitymania/input/EventCode.cs:16-22 | each code's ordinal is below the number of codes |
| EventCodes.PlayerOrdinal | gravitymania/input/EventCode.cs:9-14 | each player index is 0, 1 or 2 |
| EventCodes.ForCode | gravitymania/input/EventCode.cs:29-33 | the one-argument constructor belongs to Neither player |
| EventCodes.EqualsMeansSameKey | gravitymania/input/EventCode.cs:46-61 | Equals holds iff code and player agree, is false for null and non-keys, and the object overload agrees |
| EventCodes.HashCodeInjective | gravitymania/input/EventCode.cs:41-44 | equal hashes iff equal keys |
| InputFrames.FrameOf | gravitymania/input/InputFrame.cs:21-29 | exactly the listed buttons are down |
| InputFrames.FrameOfDependsOnlyOnMembers | gravitymania/input/InputFrame.cs:25-28 | repeated or reordered buttons give the same frame |
| InputFrames.InputFrame.constructor | gravitymania/input/InputFrame.cs:21-29 | the bits are FrameOf the listed buttons |
| InputFrames.InputFrame.SetState | gravitymania/input/InputFrame.cs:31-34 | sets that one button and leaves every other |
| InputStates.GetButtonState | gravitymania/input/InputState.cs:30-33 | Pressed iff the key is down |
| InputEventGenerators.StepFollowsInput | gravitymania/input/InputEventGenerator.cs:49-66 | the new state is the observed one; there is data iff it changed, and the data carries the new state |
| InputEventGenerators.StepTwiceIsQuiet | gravitymania/input/InputEventGenerator.cs:49-66 | the same input twice gives no data the second time |
| InputEventGenerators.HoldEventGenerator.constructor | gravitymania/input/InputEventGenerator.cs:43-47 | listens to the key, Released |
| InputEventGenerators.HoldEventGenerator.Update | gravitymania/input/InputEventGenerator.cs:49-66 | the state and the data are Step of the old state and the key's button state |
| InputEventGenerators.HoldEventGenerator.SetListenKey | gravitymania/input/InputEventGenerator.cs:68-71 | changes only the listened key |
| InputEventGenerators.UpdateTwice | gravitymania/input/InputEventGenerator.cs:49-66 | a fresh generator reports a press once for a held key and then nothing |
| InputEventManagers.InputEventManager.constructor | gravitymania/input/InputEventManager.cs:15-20 | no generators, no listeners |
| InputEventManagers.InputEventManager.SetInputGenerator | gravitymania/input/InputEventManager.cs:38-41 | overwrites the code's generator |
| InputEventManagers.InputEventManager.ClearInputGenerator | gravitymania/input/InputEventManager.cs:43-49 | removes the code's generator, if any |
| InputEventManagers.InputEventManager.SetInputEventListener | gravitymania/input/InputEventManager.cs:51-54 | overwrites the code's listener |
| InputEventManagers.InputEventManager.ClearInputEventListener | gravitymania/input/InputEventManager.cs:56-62 | removes the code's listener, if any |
| InputEventManagers.InputEventManager.RemoveInputEventListener | gravitymania/input/InputEventManager.cs:64-73 | removes every code mapped to the listener and keeps all other mappings |
| InputEventManagers.InputEventManager.RunInput | gravitymania/input/InputEventManager.cs:22-36 | updates exactly the generators that have a listener; a listener is called with (code, data) iff its generator reported a change; once per code |
| GuiEventManagers.KeyEventsIffChanged | gravitymania/input/GUIEventManager.cs:31-77 | a device event and a raw event fire for a listed key iff its state changed, with pressed = now Pressed |
| GuiEventManagers.KeyEventsKinds | gravitymania/input/GUIEventManager.cs:31-77 | the key loops raise only key, pad, mouse-button and raw events |
| GuiEventManagers.MouseEvents | gravitymania/input/GUIEventManager.cs:79-96 | a wheel event with delta = new - old fires iff the wheel moved, and a move event iff X or Y changed |
| GuiEventManagers.NoChangeNoEvents | gravitymania/input/GUIEventManager.cs:31-77 | an unchanged state raises no key events |
| GuiEventManagers.KeyPressScenario | Tests/input/TestInputEventManager.cs:81-114 | pressing B, A, C one by one and then moving to C, D raises exactly the expected press and release events |
| GuiEventManagers.GUIEventManager.constructor | gravitymania/input/GUIEventManager.cs:18-19 | both states blank |
| GuiEventManagers.GUIEventManager.Flush | gravitymania/input/GUIEventManager.cs:21-24 | resets the previous state |
| GuiEventManagers.GUIEventManager.Update | gravitymania/input/GUIEventManager.cs:26-97 | the previous state becomes the old current one, the current one the input, and the events are Events of the two |
| GuiEventManagers.GUIEventManager.RaiseKeyEvents | gravitymania/input/GUIEventManager.cs:31-45 | the loop over a key list raises exactly KeyEvents |
| FrameAdvanceManagers.Tick | gravitymania/game/FrameAdvanceManager.cs:42-52 | the counter stays below max(FrameSkip, 1) and within a uint, the advance is used up, and nothing else changes |
| FrameAdvanceManagers.AdvanceRunsOneFrame | gravitymania/game/FrameAdvanceManager.cs:31-52 | after FrameAdvance the next frame updates and, being paused, the one after does not |
| FrameAdvanceManagers.PausedStaysStill | gravitymania/game/FrameAdvanceManager.cs:31-52 | paused with no advance pending, no frame updates |
| FrameAdvanceManagers.SkipPeriod | gravitymania/game/FrameAdvanceManager.cs:31-52 | with skip k the game updates on one frame in every k |
| FrameAdvanceManagers.NoSkipUpdatesEveryFrame | gravitymania/game/FrameAdvanceManager.cs:31-52 | with skip 0 or 1 every frame updates |
| FrameAdvanceManagers.FrameAdvanceManager.constructor | gravitymania/game/FrameAdvanceManager.cs:13-19 | not paused, no advance, skip 0, counter 0 |
| FrameAdvanceManagers.FrameAdvanceManager.SetFrameSkip | gravitymania/game/FrameAdvanceManager.cs:11 | changes only the skip |
| FrameAdvanceManagers.FrameAdvanceManager.Pause | gravitymania/game/FrameAdvanceManager.cs:21-24 | only sets IsPaused |
| FrameAdvanceManagers.FrameAdvanceManager.UnPause | gravitymania/game/FrameAdvanceManager.cs:26-29 | only clears IsPaused |
| FrameAdvanceManagers.FrameAdvanceManager.ShouldUpdateThisFrame | gravitymania/game/FrameAdvanceManager.cs:31-34 | the frame updates when running on a counter of 0 or when an advance is pending |
| FrameAdvanceManagers.FrameAdvanceManager.FrameAdvance | gravitymania/game/FrameAdvanceManager.cs:36-40 | pauses and marks one frame to advance |
| FrameAdvanceManagers.FrameAdvanceManager.Update | gravitymania/game/FrameAdvanceManager.cs:42-52 | the state becomes Tick of the old one and stays within uint range |

## Left out

- The swept ellipse-against-segment solvers (collision/Collide.cs, math/Collide.cs) are float numerics built on square roots. GameCollision takes the solver as a function parameter instead.
- Ellipse.cs, Camera.cs and the square-root parts of Line2d.cs (the normalising equation constructor, SignedDistance, PointDistance, ClosestPoint, Length) are float numerics on XNA matrices and square roots.
- Floating point itself is modelled as exact reals: no rounding, NaN or infinities, and the 0.001 normal tolerance is an exact real.
- Line2d.LineSegment.LengthSquared: the "zero only for a degenerate segment" direction is not proved. It is a nonlinear real fact the solver could not close.
- Rendering and the XNA lifecycle are left out: Draw, LoadContent, fonts, textures, PrimitiveBatch, GameRoot, MainGame, MapEditor and Player.Render.
- InputStates.GetButtonState: a key reads as Pressed iff it is in the set of down keys. The analog value and the dead zone of the source are not modelled.
- Device polling (InputState.ReadCurrentState, DX8Joypad, InputUtil) is left out. The input state is an abstract set of down keys with a mouse state.
- GuiEventManagers.GUIEventManager.Update: a pad that is not present reads as Released, so the pad loop raises nothing for it. The source throws there instead. The state before the first Update is `default(InputState)`, whose Pads array is null (GUIEventManager.cs:18-19), so the pad loop dereferences null (InputState.cs:47). A state built without pads, as the tests build it, has an empty Pads array, so the loop indexes past its end. The model follows what the tests expect of the key events.
- RawKey name parsing is left out: it works by regular expressions and enum reflection.
- Reflection and string serialisation are left out, and so are the concrete texture and font asset loaders. These are file I/O and runtime reflection.
- NumTools.FEquals and the Int16 conversions are left out: they are float tolerance and casts.
- TileMapLoader.LoadFromStupidText is left out: it is a hard-coded level.
- Asset loading is a `loaded` flag: Load sets it, UnLoad clears it and IsLoaded reads it.
- The static key lists of GUIEventManager are constructor parameters.
- C# events and listener callbacks are returned as values:
  - CommandEntered is `entered`;
  - the GUI events are the returned sequence, as if every subscriber were attached;
  - the listener calls are the returned `calls`.
- Executors and listeners are object identities (`nat`). Whether an executor accepts a command is a function parameter.
- Dictionary iteration order is not modelled. RunInput and RefreshAssets are proved for every order.
- InputEventManagers.InputEventManager.RunInput requires that no generator object serves two codes. With a shared generator the result would depend on the order of iteration.
- Case-insensitive string comparison folds ASCII letters only. Culture and Unicode case rules are not modelled.
- Assets.Asset.CompareTo returns -1, 0 or 1 rather than String.Compare's arbitrary signed difference; only its sign is modelled.
- Assets.Asset.Grab and Assets.Asset.Drop require a manager: the source dereferences null there, and the model does not let a detached asset call them.
- Exceptions are Failure results:
  - a duplicate AddAsset name;
  - a missing key in RemoveAsset;
  - the null asset of a missing name in GrabAsset and DropAsset;
  - a malformed console escape;
  - an out-of-range template index;
  - a short level text.
- ConsoleInputLines.ConsoleInputLine.constructor takes its key map as a parameter, while the source always starts with the static US map and lets callers replace it through the CurrentKeyMap setter. The game console passes the US map.
- GameConsoles.GameConsole.constructor creates its own US key map instead of sharing a static one. The key reader's keyboard state is passed in as the pressed keys.
- FrameAdvanceManagers.FrameAdvanceManager.Update does not wrap its uint counter: it requires the counter below the uint limit, and proves the counter stays below the skip after each frame.
- ConsoleKeyReaders.ConsoleKeyReader.Update and GameConsoles.GameConsole.Update do not model uint wrap-around of the held time and the blink counter. These counters are unbounded naturals; with the default delays (25, 2 and 30) they are reset long before any wrap.
- Player keys use the ordinals LEFT = 0, RIGHT = 1, JUMP = 2, because PlayerKey is not part of this model.
- XNA key codes use their Windows virtual-key numbers.
- The AABBox struct, the Vector2 struct and LineSegment are values: copying semantics, with no aliasing.
- MainGame.Players is modelled as a two-element array of players.

## Findings

| source | as written | input that shows it | evidently intended | confidence | as-written member | corrected member |
|---|---|---|---|---|---|---|
| gravitymania/math/AABBox.cs:66-69 | Overlaps tests only whether a corner (Min or Max) of one box lies in the other | boxes (0,0)-(2,2) and (1,-1)-(3,1) share the square (1,0)-(2,1), yet neither box's Min or Max lies in the other | overlap of the X intervals and of the Y intervals | not executed | BoundingBoxes.OverlapsMissesCrossing | BoundingBoxes.IntersectsIffCommonPoint |
