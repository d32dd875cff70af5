# Note block song layout, in Dafny

Note-Block-Engine turns a song into a Minecraft schematic. A song is a list of events. Each event is a chord of note tokens (`C4`, `F#5`, ...) followed by a duration token (`1`, `3/4`, ...).

The generator does the following:
- reads the durations and scales them by the least common denominator of the song;
- sizes a three-dimensional canvas of (block id, data) cells, indexed `[y, z, x]`;
- lays each chord out as note blocks with the instrument block under each;
- lays redstone lines between the columns of notes;
- builds the clock "engine", which delivers one pulse per time step. The engine is made of:
  - repeater staircases, which it rotates and stacks with `cycle_area_down` and `stack_area`;
  - torch towers;
  - a final repeater stage that it tunes to the exact tick interval.

This project models that core and proves what each part promises.

The model is split into these modules:

- `Wrappers`: Option, Result and the exceptions the generator can raise. These are its own `PolyphonyException` and `TorchTowerException`, plus `KeyError`, `IndexError`, `ValueError`, `OverflowError` and `ZeroDivisionError`.
- `Blocks`: the encoding tables:
  - block ids and block states;
  - the torch, repeater and sticky piston tables, keyed by direction;
  - the instrument blocks;
  - the 73-entry table from note tokens to (instrument, pitch).
- `NumberTheory`:
  - gcd and lcm;
  - Python's truncating `int(a / b)`, floor `//` and `%`;
  - the orbit of `j -> j + t (mod h)` that the juggling rotation walks.
- `Durations`:
  - `int` and `str.split` on tokens;
  - `parse_duration`;
  - the two passes of `parse_file` that fold the lcm of the denominators and sum the scaled durations.
- `Canvas`: the schematic as a class. It holds two `array3<int>` (blocks and data) and the list of note block entities. It offers `place_block` and `place_note_block`. It also defines a write log: a canvas is `Logged(ws, g, d)` when every cell holds the last write of `ws` to it, and otherwise the grids `g` and `d` it started from.
- `Transforms`: `copy_area`, `stack_area` and `cycle_area_down` as in-place array methods.
- `Notes`: `gen_notes`, the slot allocation of chords along the depth axis, as a method proved against the functions `NotesRun`/`ChordRun`.
- `Lines`: `gen_lines`.
- `Clock`: `gen_delay_staircase`, with its repeater timing.
- `Tower`: `gen_torch_tower`.
- `Engine`: the row selection and delay bookkeeping of `gen_engine`.
- `Export`: the canvas sizing of `export_schematic`, and the build of notes and lines on a fresh canvas.

Exceptions are modelled as `Err` values of the operation that raises them. A dictionary miss is `KeyError`. A numpy index outside the canvas is `IndexError`. A failing `int` is `ValueError`.

## Model

| member | source | states |
|---|---|---|
| Blocks.BlockIdOf | noteblock.py:16-29 | a block id read back from a number has that number as its code |
| Blocks.BlockIdRoundTrip | noteblock.py:16-29 | every block id is recovered from its numeric code |
| Blocks.BlockIdCodeInjective | noteblock.py:16-29 | no two block ids share a code |
| Blocks.RepeaterTableEncoding | noteblock.py:181-206 | the repeater table has an entry exactly for the four horizontal directions and stages 1 to 4, and each entry is a repeater whose data value is facing + 4 * (stage - 1) |
| Blocks.RepeaterBlock | noteblock.py:181-206 | the entry for a horizontal direction and a stage 1 to 4 is a redstone repeater whose data byte is facing + 4 * (stage - 1) |
| Blocks.TorchBlock | noteblock.py:173-179 | the entry for any direction but down is a redstone torch whose data byte is 0 standing up and 1, 2, 3, 4 facing east, west, south, north |
| Blocks.InstrumentBlockIsAir | noteblock.py:165-171 | the instrument block is air exactly for the harp |
| Blocks.LookupNote | noteblock.py:89-163 | every entry of the note table has pitch 0 to 24 and instrument bell, harp or bass |
| Blocks.LookupNoteIsSemitoneLadder | noteblock.py:89-163 | the note table is the semitone ladder from F#1 to F#7: bass F#1..F3, harp F#3..F#5, bell G5..F#7, with pitch counted from the instrument's F# |
| NumberTheory.Gcd | noteblock.py:320 | the gcd of two naturals, not both 0, is positive |
| NumberTheory.FloorMod | noteblock.py:350 | Python's `%`: quotient and remainder recompose the dividend, and the remainder has the sign of the divisor |
| NumberTheory.TruncDivExact | noteblock.py:226 | `int(lcd / denom)` is exact when denom divides lcd |
| NumberTheory.GcdDivides | noteblock.py:320 | the gcd divides both arguments |
| NumberTheory.Bezout | noteblock.py:320 | the gcd is an integer combination of its arguments |
| NumberTheory.LcmIsCommonMultiple | noteblock.py:243 | the lcm of two positive numbers is a positive common multiple |
| NumberTheory.StepMod | noteblock.py:325-327 | the juggling step `k = j + times; if k >= height: k -= height` is `(j + times) mod height` |
| NumberTheory.OrbitClosedForm | noteblock.py:324-332 | after n steps from i the juggling index is `(i + n * times) mod height` |
| NumberTheory.OrbitClass | noteblock.py:324-332 | every index the walk from i visits lies in i's residue class modulo gcd(times, height) |
| NumberTheory.OrbitReturn | noteblock.py:324-329 | the walk comes back to i after height / gcd(times, height) steps, so the `while True` loop ends |
| NumberTheory.FirstReturn | noteblock.py:324-329 | there is a first step count at which the walk is back at i |
| NumberTheory.OrbitCovers | noteblock.py:320-332 | before its first return the walk reaches every index of i's residue class |
| NumberTheory.VisitsIsClass | noteblock.py:320-332 | the indices visited before the first return are exactly i's residue class modulo the gcd |
| Durations.ParseInt | noteblock.py:225-227 | `int` on a token fails only with ValueError |
| Durations.NatDigitsValue | noteblock.py:225-227 | the digits printed for n read back as n |
| Durations.ParseIntRoundTrip | noteblock.py:225-227 | `int(str(n)) == n` for every integer n |
| Durations.Split | noteblock.py:225 | `split` gives at least one piece, and at least two when the separator occurs |
| Durations.SplitJoin | noteblock.py:225 | joining the pieces of a split with the separator gives back the token |
| Durations.SplitPiecesFree | noteblock.py:225 | no piece of a split holds the separator |
| Durations.ReadDuration | noteblock.py:224-227 | a malformed duration token (not one integer, not two integers around one '/') fails with ValueError |
| Durations.ScaleDuration | noteblock.py:226-227 | scaling fails exactly for a zero denominator. The lcd is then a numpy int64, so the division gives nan for a zero lcd and `int` raises ValueError; for any other lcd it gives an infinity and `int` raises OverflowError |
| Durations.ParseDurationExact | noteblock.py:223-227 | `n` scales to n * lcd, and `num/denom` with denom dividing lcd scales to exactly num * lcd / denom |
| Durations.DividesLcm | noteblock.py:243 | whatever divides one argument of the lcm divides the lcm |
| Durations.SongLcdDivides | noteblock.py:241-243 | the lcd of a song is a multiple of every denominator in it |
| Durations.FractionScalesExactly | noteblock.py:241-246 | every fraction of a song scales by the song's lcd to an exact integer, num * lcd / denom |
| Durations.ZeroDenominatorZeroLcd | noteblock.py:241-243 | a zero denominator anywhere in the song makes its lcd 0 |
| Durations.ZeroLcdLengthErrors | noteblock.py:223-246 | at a zero lcd every failure of the length pass is a ValueError |
| Durations.ZeroDenominatorRaisesValueError | noteblock.py:223-247 | a song that holds a fraction with a zero denominator, and whose lcd pass succeeds, fails its length pass with ValueError |
| Durations.ParseSong | noteblock.py:236-247 | the two passes give the lcd and the length of the song, or the first error either pass meets |
| Durations.PrefixErrorPersistsLcd | noteblock.py:241-243 | once a token fails in the lcd pass, the whole pass fails with that error |
| Durations.PrefixErrorPersistsLength | noteblock.py:244-246 | once a token fails in the length pass, the whole pass fails with that error |
| Canvas.LastWriteSnoc | noteblock.py:263-266 | one more write changes only its own cell's last write |
| Canvas.LastWriteAppend | noteblock.py:263-266 | after two runs of writes a cell holds the second run's last write to it, if any, else the first run's |
| Canvas.Schematic.GridOf | noteblock.py:539 | the grid view of an array has the canvas's shape and its values |
| Canvas.Schematic.LoggedNothing | noteblock.py:539 | before any write the canvas is logged against its own contents |
| Canvas.Schematic.constructor | noteblock.py:539 | a fresh canvas of the given shape, all air with data 0, with no entities |
| Canvas.Schematic.PlaceBlock | noteblock.py:259-266 | `place_block` sets the one cell (x + ox, y + oy, z + oz) to the block's id and its state's code (0 for no state), changes no other cell, and extends the write log by that write |
| Canvas.Schematic.PlaceBlocks | noteblock.py:259-266 | a run of in-bounds `place_block` calls extends the log by those writes in order |
| Canvas.Schematic.PlaceNoteBlock | noteblock.py:268-281 | writes a note block at the cell and the instrument's block under it, appends the pitch entity at the cell, and returns the instrument block |
| Transforms.Extent | noteblock.py:285-290 | `range(lo, hi + 1)` is non-empty exactly when lo <= hi, and then ends at hi |
| Transforms.CopyRun | noteblock.py:289-293 | the innermost `zip` loop of `copy_area` copies one run along z and writes nothing else |
| Transforms.CopyPlane | noteblock.py:287-293 | the middle loop copies a plane of runs and writes nothing else |
| Transforms.CopyBox | noteblock.py:285-293 | the three loops copy the box cell by cell and write nothing else |
| Transforms.CopyArea | noteblock.py:283-293 | each axis is cut to the shorter of its two ranges; no cell outside the cut destination box changes; when the boxes do not overlap, each destination cell takes its source cell's block and data |
| Transforms.Fold | noteblock.py:297-312 | a coordinate folded back into the tile [lo, lo + n) |
| Transforms.TileIndex | noteblock.py:297-312 | v lies in tile c exactly when (v - lo) / n == c, and then folds to v - c * n |
| Transforms.CopyShifted | noteblock.py:299-312 | a `copy_area` of the region onto a disjoint shifted copy of it: the copy holds the region's cells, nothing else changes |
| Transforms.CopyLayerUp | noteblock.py:298-300 | pass i of the up loop makes layer i + 1 a copy of the region |
| Transforms.StackUp | noteblock.py:297-300 | after the up loop, every cell of the `up + 1` layers holds the region cell its row folds back to; nothing else changes |
| Transforms.CopyLayerEast | noteblock.py:304-306 | pass i of the east loop copies the grown block to z offset (i + 1) * width |
| Transforms.StackEast | noteblock.py:302-306 | after the east loop, every copy along z holds the grown block's cell its z folds back to; nothing else changes |
| Transforms.StackGrow | noteblock.py:297-306 | up and east together: every cell of the grown block holds the region cell at the same offset within its repetition |
| Transforms.InCopiesRange | noteblock.py:308-312 | being in one of the south copies is a linear range of x whose fold lands in the region |
| Transforms.CopyTileSouth | noteblock.py:310-312 | pass i of the south loop copies the region, with the quirky z extent, to x offset (i + 1) * depth |
| Transforms.StackSouth | noteblock.py:308-312 | after the south loop each south copy holds what its x folds back to |
| Transforms.StackArea | noteblock.py:295-312 | the region is repeated up and east as StackGrow says. With the source's `depth = x_hi + x_lo + 1` and `z_hi` grown by `up_times`, each south copy holds the grown block up to the east copies' end and, above it, the canvas's cells at its source column. Nothing else changes |
| Transforms.Column | noteblock.py:321-334 | the h cells of column (x, z) from yl, as a sequence |
| Transforms.PutCell | noteblock.py:330-334 | one write of the juggling loop changes one entry of the column and no other cell |
| Transforms.ClassCycled | noteblock.py:320-334 | a column after the cycle of residue class i: each offset of the class takes the offset one step further |
| Transforms.JuggleVisits | noteblock.py:324-332 | until the walk returns, each visited offset holds its successor's original cell and every other offset is untouched |
| Transforms.JuggleClose | noteblock.py:333-334 | writing the saved start cell into the last visited offset completes the cycle of i's class |
| Transforms.JuggleCycle | noteblock.py:321-334 | one pass of `for i in range(gcd(times, height))` cycles i's residue class of the column and changes no other cell |
| Transforms.RotateDown | noteblock.py:315-334 | the reference rotation: the column moved down by t, with the same length |
| Transforms.RotateDownIndex | noteblock.py:315-334 | offset q of the rotation holds old offset (q + t) mod h |
| Transforms.RotateDownPermutes | noteblock.py:315-334 | rotation keeps each column's multiset of values |
| Transforms.RotateDownInverse | noteblock.py:315-334 | rotating by t and then by h - t restores the column |
| Transforms.RotateDownCompose | noteblock.py:315-334 | rotating by a and then by b is rotating by a + b mod h |
| Transforms.Cycled | noteblock.py:320-334 | a column after the cycles of the first k residue classes |
| Transforms.CycledNone | noteblock.py:320 | before any class is cycled the column is unchanged |
| Transforms.CycledNext | noteblock.py:320-334 | cycling class i after classes 0 .. i - 1 gives the column with classes 0 .. i cycled |
| Transforms.CycledAll | noteblock.py:320-334 | once all gcd(times, height) classes are cycled, the column is rotated down by times |
| Transforms.RotateColumn | noteblock.py:320-334 | the juggling loops rotate the column down by times, blocks and data together: cell yl + j takes old cell yl + (j + times) mod h; no other cell changes |
| Transforms.RotateStrip | noteblock.py:319-334 | every column of the z loop is rotated; no other cell changes |
| Transforms.CycleAreaDown | noteblock.py:315-334 | every column of the box ends with cell yl + j holding old cell yl + (j + times) mod height, blocks and data together; no cell outside the box changes |
| Notes.SkipTaken | noteblock.py:358-361 | the skip loop computes the slot Skip selects, or PolyphonyException |
| Notes.SkipSelects | noteblock.py:358-361 | the skip selects the first slot from `attempt` not held by the previous event; it raises PolyphonyException exactly when every slot from `attempt` up to depth_max is held |
| Notes.ChordRunStep | noteblock.py:357-368 | a chord one note longer runs one more note step, and a failing note fails the chord |
| Notes.NotesRunStep | noteblock.py:348-370 | one more event runs one more event step, and a failing event fails `gen_notes` |
| Notes.ChordRunErrPersists | noteblock.py:357-368 | once a prefix of a chord fails, the chord fails the same way |
| Notes.NotesRunErrPersists | noteblock.py:348-370 | once a prefix of the events fails, `gen_notes` fails the same way |
| Notes.NoteStepOk | noteblock.py:357-368 | a note that succeeds takes the slot the skip selects and has the table's note. Both of its cells are on the canvas. Its slot is recorded only when its instrument block is not air, and depth_reached becomes the larger of its old value and slot + 1 |
| Notes.NoteStepPlaces | noteblock.py:357-368 | a note with a free slot, a table entry and room on the canvas moves the chord on by exactly one placement |
| Notes.ChordLaidOut | noteblock.py:357-368 | a chord that goes through is laid out note by note: each note takes the first slot, from the slot after the previous note's, that the previous event did not record |
| Notes.LayoutIncreasing | noteblock.py:357-368 | the slots of one chord strictly increase |
| Notes.ChordRecordsSolid | noteblock.py:365-366 | the slots a chord records are exactly those of its non-air notes, in order |
| Notes.ChordDepth | noteblock.py:367 | depth_reached becomes the larger of its old value and the slot after the chord's last note |
| Notes.ChordAllocation | noteblock.py:353-369 | the allocation rule for one chord: layout, increasing slots, only non-air slots recorded, and depth_reached above every slot |
| Notes.NoPolyphonyWithoutPrev | noteblock.py:353-361 | a chord on row 0 (no allocations to avoid) never raises PolyphonyException |
| Notes.ChordOverflowIndexError | noteblock.py:358-368 | the bound is checked only in the skip loop: with depth_max 1, one C4 goes through, but two C4s with nothing to skip run off the canvas with IndexError, not PolyphonyException |
| Notes.EventStepOk | noteblock.py:348-370 | an event that goes through lays out its chord at column int(i / rows), row i % rows, against the previous allocations (none on row 0), and advances i by its scaled duration |
| Notes.EventAllocation | noteblock.py:348-370 | an event that goes through keeps the earlier placements, adds a chord laid out by the allocation rule at its cell, passes on only its non-air slots, and advances i by its scaled duration |
| Notes.ChordKeepsPlaced | noteblock.py:349-367 | appending a chord laid out at a row and column keeps every note at an odd height and width inside the canvas, below depth_reached |
| Notes.EventKeepsPlaced | noteblock.py:348-370 | every event that goes through keeps that placement invariant |
| Notes.NotesLayout | noteblock.py:344-371 | every note `gen_notes` places sits at an odd height and width offset, inside the canvas, in a slot below depth_reached; depth_reached is 0 exactly when nothing is placed and is otherwise one past the largest slot used |
| Notes.PlacedWritesAppend | noteblock.py:363-364 | the writes and entities of two runs of placements are those of each, in order |
| Notes.PlaceNote | noteblock.py:357-368 | one note of a chord computes the note step, and the canvas gains its note block, instrument block and entity |
| Notes.PlaceChord | noteblock.py:357-368 | the note loop computes ChordRun, and the canvas gains the chord's writes and entities |
| Notes.PlaceEvent | noteblock.py:348-370 | one event computes the event step, and the canvas gains its chord's writes and entities |
| Notes.GenNotes | noteblock.py:344-371 | `gen_notes` returns depth_reached or the exception the run raises; the canvas and its entities are exactly the writes and entities of the notes it places |
| Lines.DepthCells | noteblock.py:339-342 | a line leaves the line block at height y and dust at y + 1 along its depth, and every other cell as before |
| Lines.ColumnCells | noteblock.py:338-342 | a column's lines fill heights y .. y + 2 * rows - 1 along the depth, line blocks at even offsets and dust at odd ones |
| Lines.LineWritesCells | noteblock.py:336-342 | the writes of `gen_lines` alone give each cell exactly the block LineCell says, and no other cell a write |
| Lines.LineCells | noteblock.py:336-342 | after any earlier writes, `gen_lines` decides the cells of its even width offsets and leaves all others as they were |
| Lines.PlaceLineCell | noteblock.py:340-342 | the depth loop body writes the line block and the dust above it |
| Lines.PlaceLineColumn | noteblock.py:338-342 | the row and depth loops write one column of lines |
| Lines.GenLines | noteblock.py:336-342 | `gen_lines` extends the canvas's write log by exactly its line and dust writes |
| Clock.LastStepDelay | noteblock.py:394 | the last step's delay `delay % 8`, or 8 when that is 0, lies in 1 to 8 |
| Clock.StaircaseWithin | noteblock.py:373-409 | the staircase only writes the slice z, x offsets 0 to delay / 8 + 2 and y offsets 0 to 3 |
| Clock.GenDelayStaircase | noteblock.py:373-409 | returns delay / 8 + 3, and extends the write log by exactly the staircase's writes |
| Clock.RepeaterStage | noteblock.py:181-206 | each repeater of the table has the stage it was looked up with |
| Clock.StaircaseRepeaters | noteblock.py:380-404 | the repeaters of the staircase, in order, have stages 4 and 4 for each full step, then min(4, r) and, when r > 4, r - 4 |
| Clock.FullStepDelaysSum | noteblock.py:380-386 | the full steps' stages are all 4 and sum to 8 per step |
| Clock.StaircaseTiming | noteblock.py:380-404 | every stage looked up is 1 to 4, and the stages sum to 8 * (delay / 8) + r: delay itself, or delay + 8 when delay is a multiple of 8 |
| Clock.StaircaseLastStep | noteblock.py:388-404 | the last step has the slab at its foot exactly when delay <= 4, and an east repeater of r - 4 ticks on top exactly when r > 4, dust otherwise |
| Tower.TowerCells | noteblock.py:411-417 | the tower's writes leave the filler block at even heights and an upward torch at odd ones in column (x, z) below `height`, and write no other cell |
| Tower.GenTorchTower | noteblock.py:411-417 | `gen_torch_tower` extends the write log by exactly the tower's writes (none for a height of 0 or less) |
| Engine.EngineTiming | noteblock.py:456-495 | the scan and the deductions compute EngineTimingOf |
| Engine.WindowLoMonotone | noteblock.py:459 | window starts do not decrease with the row when t + 2 >= 0 |
| Engine.ScanRowsSelects | noteblock.py:458-467 | the scan selects the first row whose window holds the budget, and raises TorchTowerException exactly when none does |
| Engine.TuneStage | noteblock.py:478-495 | after the deductions the stage is 1 to 4, the extra pair is placed exactly when 4 ticks remain, and towers, wires, the pair and the stage pay the whole budget |
| Engine.EngineTimingSpec | noteblock.py:456-495 | TorchTowerException exactly when no row in [1, rows) has a window holding t * (int(rows / 2) - 1) - 5; otherwise the first such row, with a stage the repeater table holds, and the delays add up to the budget |
| Export.CeilBounds | noteblock.py:534 | `ceil(a / b)` is the least multiple count covering a |
| Export.CanvasShapeSpec | noteblock.py:534-538 | zero rows raise what `ceil(length / 0)` raises: ZeroDivisionError for a Python-int length; for a numpy int64 length, ValueError (nan) when the length is 0 and OverflowError (infinity) otherwise. Rows <= -2 give a negative-size ValueError. For positive rows the canvas is 2 * rows + 2 high, and two cells wide per column of the fewest columns covering the song. Its depth is 15 + 6 + int(abs(t - 1) / 8), at least 21 |
| Export.EventCellInside | noteblock.py:349-352 | every time index below the song length has its note cell and the cell under it inside the canvas |
| Export.ColumnBelow | noteblock.py:534 | the column of a time index below the length is below the column count |
| Export.CellIndex | noteblock.py:349-350 | for non-negative i, `int(i / rows)` and `i % rows` are Euclidean division |
| Export.DepthReachedInside | noteblock.py:541-542 | the depth_reached `gen_notes` returns never passes the canvas depth |
| Export.LinesInside | noteblock.py:542 | the box `gen_lines` fills lies inside the canvas |
| Export.LinesSpareNotes | noteblock.py:541-542 | the lines, one cell above the notes' origin, never address a note block or the instrument cell under it |
| Export.LinesKeepNotes | noteblock.py:541-542 | after the lines, every note block and instrument cell holds what the notes left there |
| Export.LinesKeepCell | noteblock.py:542 | a cell the lines do not address keeps its last write |
| Export.ExportCanvas | noteblock.py:533-542 | `export_schematic` up to the engine fails exactly as the sizing or `gen_notes` fails. The sizing divides a length that is a numpy int64 exactly when the song has both a '/' duration and a whole one. Otherwise it gives a fresh canvas of the computed shape holding the note writes followed by the line writes over air, with one entity per placed note |

## Left out

- Reading the song file in `parse_file` (noteblock.py:229-240) is not modelled. The model starts from the already tokenised events.
- `list_bpms` (noteblock.py:249-257) is left out: it is floating-point arithmetic on TPS and BPM.
- `main` (noteblock.py:547-561) is left out: it is argument, console and printing I/O.
- `SchematicFile`, `BlockEntity`, `nbtlib` and `sf.save` are not part of this model. They are replaced by the `Canvas.Schematic` class and an entity list of (x, y, z, pitch). A negative canvas dimension, which the library rejects, is modelled as ValueError.
- `math.gcd` and `numpy.lcm` are replaced by the definitions in `NumberTheory` (lcm of absolute values, 0 when either argument is 0).
- The 64-bit width of the song's lcd and length is not modelled. `numpy.lcm` makes the lcd a numpy int64, so `int(duration) * lcd` and the length sum (noteblock.py:227, 246) wrap around past 2^63, and `numpy.lcm` raises OverflowError for a denominator beyond int64. `Durations.SongLcd`, `Durations.ScaleDuration` and `Durations.SongLength` compute with unbounded integers and have neither behaviour. The int64 type is modelled only where it decides which exception a division by zero raises: in `Durations.ScaleDuration`, and through `Durations.LengthIsInt64` in `Export.Columns`.
- The literal writes of `gen_engine` (noteblock.py:420-455, 468-477, 485-490, 492-531) are not modelled. They are fixed geometry. The engine's calls to the staircase, `cycle_area_down` (times 2 and 3), `stack_area` (south 0) and the towers are modelled by those operations, and its scan and deductions by `Engine`. `Export.ExportCanvas` stops before `gen_engine`, so the engine's writes are not composed into the exported canvas.
- Negative coordinates, which numpy would wrap around, are not modelled. The write methods require their cells on the canvas, and `gen_notes` reports a note cell off the canvas as IndexError.
- Float rounding of `int(a / b)` and `ceil(a / b)` for very large operands is not modelled. The model divides exactly.
- Durations.ParseInt: reads ASCII digits only, after an optional `+` or `-`. The non-ASCII Unicode decimal digits, the surrounding whitespace and the `_` separators that Python's `int` also accepts are not modelled.
- Transforms.CycleAreaDown: requires `0 <= times <= height` and a non-empty height. With larger `times` the source's single subtraction indexes outside the column. The engine's calls use times 2 and 3 on a height of 4.
- Transforms.StackArea: requires a non-negative `x_lo`, a non-empty region and all copies on the canvas. Copies that overlap the region are not modelled, and neither is negative wrap-around.
- Transforms.CopyArea: states the destination cells only when the source and destination boxes do not overlap. For overlapping boxes it still states that nothing outside the destination box changes.
- Clock.GenDelayStaircase: the delay is a natural number, and the `slab` parameter, which the source never reads, is accepted and ignored. The wiring slab constant is what the source writes.
- Engine.EngineTimingSpec: requires `t + 2 >= 0`. For faster negative tick intervals the windows are not ordered, and only `Engine.EngineTiming`'s equation with `EngineTimingOf` holds.
- Notes.GenNotes: drops the `cols` parameter, which the source never reads.
- The two-note example of `gen_notes` (C4 then E4 on two rows) is not proved as a separate lemma. Its layout follows from `Notes.NotesLayout` and `Notes.EventAllocation`.
- Notes.ChordOverflowIndexError: the unchecked slot increment (noteblock.py:368) is modelled as written. A chord with more notes than free slots runs off the canvas with IndexError rather than PolyphonyException.
