/** Note slot allocation, `gen_notes`: the events of the song fill the grid
    down the rows of a column and then across the columns, each at the cell
    index i advanced by its scaled duration. The notes of a chord take
    increasing depth slots, skipping the slots in which the previous event of
    the same column left an instrument block; that set is emptied at the top
    of each column. */
module Notes {
  import opened Wrappers
  import opened NumberTheory
  import opened Blocks
  import opened Canvas
  import opened Durations

  /** The extent of the canvas, (height, width, depth) like numpy's shape. */
  datatype Shape = Shape(height: int, width: int, depth: int)

  /** (x, y, z) is a cell of a canvas of shape s. */
  predicate Inside(s: Shape, x: int, y: int, z: int)
  {
    0 <= y < s.height && 0 <= z < s.width && 0 <= x < s.depth
  }

  /** The shape of the canvas sf. */
  function ShapeOf(sf: Schematic): Shape
    reads sf
  {
    Shape(sf.blocks.Length0, sf.blocks.Length1, sf.blocks.Length2)
  }

  /** A note block placed by `gen_notes`: its cell and its note. */
  datatype Placed = Placed(x: int, y: int, z: int, note: Note)

  /** The skip loop: the first slot from `attempt` on that `prev` does not
      hold, or PolyphonyException when a step of the skip reaches depthMax. */
  function Skip(attempt: int, prev: seq<int>, depthMax: int): Result<int, Exception>
    decreases depthMax - attempt
  {
    if attempt !in prev then Ok(attempt)
    else if attempt + 1 >= depthMax then Err(PolyphonyException)
    else Skip(attempt + 1, prev, depthMax)
  }

  /** The state of `gen_notes` within a chord: the next slot to try, the
      slots recorded for the next event, the note blocks placed so far and
      depth_reached. */
  datatype ChordState = ChordState(attempt: int, allocs: seq<int>, placed: seq<Placed>, depthReached: int)

  /** One note of a chord whose note blocks go at height y, width z and
      depth x + slot. The slot that the skip selects is used even when it is
      beyond the canvas, which numpy reports as IndexError. */
  function NoteStep(cs: ChordState, token: string, prev: seq<int>, depthMax: int,
                    x: int, y: int, z: int, shape: Shape): Result<ChordState, Exception>
  {
    match Skip(cs.attempt, prev, depthMax)
    case Err(e) => Err(e)
    case Ok(a) =>
      match LookupNote(token)
      case None => Err(KeyError)
      case Some(n) =>
        if !Inside(shape, x + a, y, z) || !Inside(shape, x + a, y - 1, z) then Err(IndexError)
        else
          var allocs := if InstrumentBlock(n.instrument).id != Air then cs.allocs + [a] else cs.allocs;
          var depth := if a + 1 > cs.depthReached then a + 1 else cs.depthReached;
          Ok(ChordState(a + 1, allocs, cs.placed + [Placed(x + a, y, z, n)], depth))
  }

  /** The notes of a chord, in order, from slot 0 with depth_reached depth0. */
  function ChordRun(chord: seq<string>, prev: seq<int>, depthMax: int, depth0: int,
                    x: int, y: int, z: int, shape: Shape): Result<ChordState, Exception>
  {
    if |chord| == 0 then Ok(ChordState(0, [], [], depth0))
    else
      match ChordRun(chord[..|chord| - 1], prev, depthMax, depth0, x, y, z, shape)
      case Err(e) => Err(e)
      case Ok(cs) => NoteStep(cs, chord[|chord| - 1], prev, depthMax, x, y, z, shape)
  }

  /** The state of `gen_notes` between events: prev_allocs, depth_reached,
      the cell index i and the note blocks placed so far. */
  datatype NotesState = NotesState(prev: seq<int>, depthReached: int, i: int, placed: seq<Placed>)

  /** One event: its cell is column int(i / rows) and row i % rows, its
      note blocks go at height y + 2 * (rows - row) - 1 and width
      z + 2 * col + 1, and i then advances by its scaled duration. */
  function EventStep(ns: NotesState, ev: Event, x: int, y: int, z: int, rows: int,
                     depthMax: int, lcd: int, shape: Shape): Result<NotesState, Exception>
  {
    if rows == 0 then Err(ZeroDivisionError)
    else
      var col := TruncDiv(ns.i, rows);
      var row := FloorMod(ns.i, rows);
      var yBase := 2 * (rows - row) - 1;
      var zBase := col * 2 + 1;
      var prev := if row == 0 then [] else ns.prev;
      match ChordRun(ev.chord, prev, depthMax, ns.depthReached, x, y + yBase, z + zBase, shape)
      case Err(e) => Err(e)
      case Ok(cs) =>
        match ParseDuration(lcd, ev.duration)
        case Err(e) => Err(e)
        case Ok(dur) => Ok(NotesState(cs.allocs, cs.depthReached, ns.i + dur, ns.placed + cs.placed))
  }

  /** The events, in order, from the empty state. */
  function NotesRun(events: seq<Event>, x: int, y: int, z: int, rows: int,
                    depthMax: int, lcd: int, shape: Shape): Result<NotesState, Exception>
  {
    if |events| == 0 then Ok(NotesState([], 0, 0, []))
    else
      match NotesRun(events[..|events| - 1], x, y, z, rows, depthMax, lcd, shape)
      case Err(e) => Err(e)
      case Ok(ns) => EventStep(ns, events[|events| - 1], x, y, z, rows, depthMax, lcd, shape)
  }

  /** What `gen_notes` returns: depth_reached, or the exception it raises. */
  function GenNotesOf(events: seq<Event>, x: int, y: int, z: int, rows: int,
                      depthMax: int, lcd: int, shape: Shape): Result<int, Exception>
  {
    match NotesRun(events, x, y, z, rows, depthMax, lcd, shape)
    case Ok(ns) => Ok(ns.depthReached)
    case Err(e) => Err(e)
  }

  /** The `place_block` writes of the note blocks ps, in order. */
  function PlacedWrites(ps: seq<Placed>): (ws: seq<Write>)
    ensures |ws| == 2 * |ps|
  {
    if |ps| == 0 then []
    else
      var p := ps[|ps| - 1];
      PlacedWrites(ps[..|ps| - 1]) + NoteBlockWrites(p.x, p.y, p.z, p.note.instrument)
  }

  /** The note block entities of ps, in order. */
  function PlacedEntities(ps: seq<Placed>): (es: seq<Entity>)
    ensures |es| == |ps|
  {
    if |ps| == 0 then []
    else
      var p := ps[|ps| - 1];
      PlacedEntities(ps[..|ps| - 1]) + [Entity(p.x, p.y, p.z, p.note.pitch)]
  }

  lemma {:induction false} PlacedWritesAppend(ps: seq<Placed>, qs: seq<Placed>)
    ensures PlacedWrites(ps + qs) == PlacedWrites(ps) + PlacedWrites(qs)
    ensures PlacedEntities(ps + qs) == PlacedEntities(ps) + PlacedEntities(qs)
    decreases |qs|
  {
    if |qs| == 0 {
      assert ps + qs == ps;
    } else {
      var init := qs[..|qs| - 1];
      assert (ps + qs)[..|ps + qs| - 1] == ps + init;
      PlacedWritesAppend(ps, init);
    }
  }

  /** The placements qs after ps, after the writes ws and the entities es. */
  lemma PlacedAppend(ws: seq<Write>, es: seq<Entity>, ps: seq<Placed>, qs: seq<Placed>)
    ensures ws + PlacedWrites(ps + qs) == ws + PlacedWrites(ps) + PlacedWrites(qs)
    ensures es + PlacedEntities(ps + qs) == es + PlacedEntities(ps) + PlacedEntities(qs)
  {
    PlacedWritesAppend(ps, qs);
  }

  /** One more placement, after the writes ws and the entities es. */
  lemma PlacedSnoc(ws: seq<Write>, es: seq<Entity>, ps: seq<Placed>, p: Placed)
    ensures ws + PlacedWrites(ps + [p]) == ws + PlacedWrites(ps) + NoteBlockWrites(p.x, p.y, p.z, p.note.instrument)
    ensures es + PlacedEntities(ps + [p]) == es + PlacedEntities(ps) + [Entity(p.x, p.y, p.z, p.note.pitch)]
  {
    assert (ps + [p])[..|ps|] == ps;
  }

  /** A chord one note longer runs one more NoteStep, and when that step
      fails the whole chord fails with it. */
  lemma ChordRunStep(chord: seq<string>, k: nat, prev: seq<int>, depthMax: int, depth0: int,
                     x: int, y: int, z: int, shape: Shape, cs: ChordState, next: Result<ChordState, Exception>)
    requires k < |chord| && ChordRun(chord[..k], prev, depthMax, depth0, x, y, z, shape) == Ok(cs)
    requires next == NoteStep(cs, chord[k], prev, depthMax, x, y, z, shape)
    ensures ChordRun(chord[..k + 1], prev, depthMax, depth0, x, y, z, shape) == next
    ensures next.Err? ==> ChordRun(chord, prev, depthMax, depth0, x, y, z, shape) == next
  {
    assert chord[..k + 1][..k] == chord[..k];
    if next.Err? {
      ChordRunErrPersists(chord, k + 1, prev, depthMax, depth0, x, y, z, shape);
    }
  }

  /** One more event runs one more EventStep, and when that step fails
      `gen_notes` fails with it. */
  lemma NotesRunStep(events: seq<Event>, e: nat, x: int, y: int, z: int, rows: int, depthMax: int,
                     lcd: int, shape: Shape, ns: NotesState, next: Result<NotesState, Exception>)
    requires e < |events| && NotesRun(events[..e], x, y, z, rows, depthMax, lcd, shape) == Ok(ns)
    requires next == EventStep(ns, events[e], x, y, z, rows, depthMax, lcd, shape)
    ensures NotesRun(events[..e + 1], x, y, z, rows, depthMax, lcd, shape) == next
    ensures next.Err? ==> NotesRun(events, x, y, z, rows, depthMax, lcd, shape) == next
  {
    assert events[..e + 1][..e] == events[..e];
    if next.Err? {
      NotesRunErrPersists(events, e + 1, x, y, z, rows, depthMax, lcd, shape);
    }
  }

  /** The skip loop of `gen_notes`. */
  method SkipTaken(attempt0: int, prev: seq<int>, depthMax: int) returns (r: Result<int, Exception>)
    ensures r == Skip(attempt0, prev, depthMax)
  {
    var attempt := attempt0;
    while attempt in prev
      invariant Skip(attempt, prev, depthMax) == Skip(attempt0, prev, depthMax)
      decreases depthMax - attempt
    {
      attempt := attempt + 1;
      if attempt >= depthMax {
        return Err(PolyphonyException);
      }
    }
    return Ok(attempt);
  }

  /** Once a prefix of a chord fails, the chord fails the same way. */
  lemma {:induction false} ChordRunErrPersists(chord: seq<string>, k: nat, prev: seq<int>, depthMax: int, depth0: int,
                                              x: int, y: int, z: int, shape: Shape)
    requires k <= |chord| && ChordRun(chord[..k], prev, depthMax, depth0, x, y, z, shape).Err?
    ensures ChordRun(chord, prev, depthMax, depth0, x, y, z, shape) ==
      ChordRun(chord[..k], prev, depthMax, depth0, x, y, z, shape)
    decreases |chord| - k
  {
    if k < |chord| {
      assert chord[..k + 1][..k] == chord[..k];
      ChordRunErrPersists(chord, k + 1, prev, depthMax, depth0, x, y, z, shape);
    } else {
      assert chord[..k] == chord;
    }
  }

  /** Once a prefix of the events fails, `gen_notes` fails the same way. */
  lemma {:induction false} NotesRunErrPersists(events: seq<Event>, k: nat, x: int, y: int, z: int, rows: int,
                                              depthMax: int, lcd: int, shape: Shape)
    requires k <= |events| && NotesRun(events[..k], x, y, z, rows, depthMax, lcd, shape).Err?
    ensures NotesRun(events, x, y, z, rows, depthMax, lcd, shape) ==
      NotesRun(events[..k], x, y, z, rows, depthMax, lcd, shape)
    decreases |events| - k
  {
    if k < |events| {
      assert events[..k + 1][..k] == events[..k];
      NotesRunErrPersists(events, k + 1, x, y, z, rows, depthMax, lcd, shape);
    } else {
      assert events[..k] == events;
    }
  }

  /** The skip selects the first slot from `attempt` on that prev does not
      hold, and goes beyond depthMax only when it does not move; it raises
      PolyphonyException exactly when prev holds every slot from `attempt`
      up to depthMax (or `attempt` itself, when that is not below
      depthMax). */
  lemma {:induction false} SkipSelects(attempt: int, prev: seq<int>, depthMax: int)
    ensures Skip(attempt, prev, depthMax).Ok? ==>
      var s := Skip(attempt, prev, depthMax).value;
      attempt <= s && s !in prev && (s == attempt || s < depthMax) &&
      forall k | attempt <= k < s :: k in prev
    ensures Skip(attempt, prev, depthMax).Err? <==>
      forall k | attempt <= k < (if depthMax > attempt then depthMax else attempt + 1) :: k in prev
    ensures Skip(attempt, prev, depthMax).Err? ==> Skip(attempt, prev, depthMax).error == PolyphonyException
    decreases depthMax - attempt
  {
    if attempt !in prev {
    } else if attempt + 1 >= depthMax {
    } else {
      SkipSelects(attempt + 1, prev, depthMax);
    }
  }

  /** The slot a placement at depth px takes, for a chord whose first slot
      is at depth x. */
  function SlotOf(p: Placed, x: int): int
  {
    p.x - x
  }

  /** s is the first slot from lo on that prev does not hold. */
  ghost predicate FirstFree(prev: seq<int>, lo: int, s: int)
  {
    lo <= s && s !in prev && forall k | lo <= k < s :: k in prev
  }

  /** One note of a chord laid out: placement p of token sits at height y
      and width z, in the first slot from lo on that prev does not hold,
      has the note the token names, and both its cells are on the canvas. */
  ghost predicate NoteLaidOut(token: string, prev: seq<int>, lo: int, x: int, y: int, z: int, shape: Shape,
                              p: Placed)
  {
    FirstFree(prev, lo, SlotOf(p, x)) && p.y == y && p.z == z && LookupNote(token) == Some(p.note) &&
    Inside(shape, p.x, y, z) && Inside(shape, p.x, y - 1, z)
  }

  /** Where the search for the i-th note's slot starts: the slot after
      the previous note's, or 0 for the first note. */
  function SearchFrom(placed: seq<Placed>, i: int, x: int): int
    requires 0 <= i <= |placed|
  {
    if i == 0 then 0 else SlotOf(placed[i - 1], x) + 1
  }

  /** The declarative layout of a chord: each note laid out as NoteLaidOut
      says, searching from the slot after the previous note's (from 0 for
      the first note). */
  ghost predicate ChordLayout(chord: seq<string>, prev: seq<int>, x: int, y: int, z: int, shape: Shape,
                              placed: seq<Placed>)
  {
    |placed| == |chord| &&
    forall i {:trigger SearchFrom(placed, i, x)} | 0 <= i < |placed| ::
      NoteLaidOut(chord[i], prev, SearchFrom(placed, i, x), x, y, z, shape, placed[i])
  }

  /** The slots a chord records for the next event: those of its notes
      whose instrument block is not air. */
  ghost predicate RecordsSolid(placed: seq<Placed>, x: int, allocs: seq<int>)
  {
    forall a :: a in allocs <==>
      exists i | 0 <= i < |placed| :: SlotOf(placed[i], x) == a && InstrumentBlock(placed[i].note.instrument).id != Air
  }

  /** What one note that succeeds does: it takes the slot the skip
      selects, appends its placement, records the slot when the
      instrument's block is not air and raises depth_reached to the slot
      after it. */
  lemma NoteStepOk(cs: ChordState, token: string, prev: seq<int>, depthMax: int,
                   x: int, y: int, z: int, shape: Shape)
    requires NoteStep(cs, token, prev, depthMax, x, y, z, shape).Ok?
    ensures var r := NoteStep(cs, token, prev, depthMax, x, y, z, shape).value;
      var p := r.placed[|r.placed| - 1];
      Skip(cs.attempt, prev, depthMax) == Ok(r.attempt - 1) &&
      r.placed == cs.placed + [p] && p == Placed(x + r.attempt - 1, y, z, p.note) &&
      LookupNote(token) == Some(p.note) && Inside(shape, p.x, y, z) && Inside(shape, p.x, y - 1, z) &&
      r.allocs == (if InstrumentBlock(p.note.instrument).id != Air then cs.allocs + [r.attempt - 1] else cs.allocs) &&
      r.depthReached == (if r.attempt > cs.depthReached then r.attempt else cs.depthReached)
  {
  }

  /** A chord that runs to the end is laid out as ChordLayout says, and
      its next attempt is the slot after its last note's. */
  lemma {:induction false} ChordLaidOut(chord: seq<string>, prev: seq<int>, depthMax: int, depth0: int,
                                       x: int, y: int, z: int, shape: Shape)
    requires ChordRun(chord, prev, depthMax, depth0, x, y, z, shape).Ok?
    ensures var cs := ChordRun(chord, prev, depthMax, depth0, x, y, z, shape).value;
      ChordLayout(chord, prev, x, y, z, shape, cs.placed) &&
      cs.attempt == (if |chord| == 0 then 0 else SlotOf(cs.placed[|chord| - 1], x) + 1)
  {
    if |chord| > 0 {
      var init := chord[..|chord| - 1];
      var cs0 := ChordRun(init, prev, depthMax, depth0, x, y, z, shape).value;
      ChordLaidOut(init, prev, depthMax, depth0, x, y, z, shape);
      SkipSelects(cs0.attempt, prev, depthMax);
      NoteStepOk(cs0, chord[|chord| - 1], prev, depthMax, x, y, z, shape);
      var cs := ChordRun(chord, prev, depthMax, depth0, x, y, z, shape).value;
      var n := |chord| - 1;
      assert cs.placed == cs0.placed + [cs.placed[n]];
      forall i | 0 <= i < |chord|
        ensures NoteLaidOut(chord[i], prev, SearchFrom(cs.placed, i, x), x, y, z, shape, cs.placed[i])
      {
        if i < n {
          assert SearchFrom(cs.placed, i, x) == SearchFrom(cs0.placed, i, x);
          assert NoteLaidOut(init[i], prev, SearchFrom(cs0.placed, i, x), x, y, z, shape, cs0.placed[i]);
        } else {
          assert SearchFrom(cs.placed, i, x) == cs0.attempt;
        }
      }
    }
  }

  /** In a chord laid out as ChordLayout says, the slots strictly
      increase. */
  lemma {:induction false} LayoutIncreasing(chord: seq<string>, prev: seq<int>, x: int, y: int, z: int,
                                           shape: Shape, placed: seq<Placed>)
    requires ChordLayout(chord, prev, x, y, z, shape, placed)
    ensures forall i, j | 0 <= i < j < |placed| :: SlotOf(placed[i], x) < SlotOf(placed[j], x)
  {
    if |placed| > 0 {
      var n := |placed| - 1;
      forall i | 0 <= i < n
        ensures NoteLaidOut(chord[..n][i], prev, SearchFrom(placed[..n], i, x),
                            x, y, z, shape, placed[..n][i])
      {
        assert SearchFrom(placed[..n], i, x) == SearchFrom(placed, i, x);
      }
      LayoutIncreasing(chord[..n], prev, x, y, z, shape, placed[..n]);
      if n > 0 {
        assert NoteLaidOut(chord[n], prev, SearchFrom(placed, n, x), x, y, z, shape, placed[n]);
      }
      forall i, j | 0 <= i < j < |placed|
        ensures SlotOf(placed[i], x) < SlotOf(placed[j], x)
      {
        if j == n && i < n - 1 {
          assert SlotOf(placed[..n][i], x) < SlotOf(placed[..n][n - 1], x);
        } else if j < n {
          assert SlotOf(placed[..n][i], x) < SlotOf(placed[..n][j], x);
        }
      }
    }
  }

  /** The slots a chord that runs to the end records are exactly its
      non-air ones. */
  lemma {:induction false} ChordRecordsSolid(chord: seq<string>, prev: seq<int>, depthMax: int, depth0: int,
                                            x: int, y: int, z: int, shape: Shape)
    requires ChordRun(chord, prev, depthMax, depth0, x, y, z, shape).Ok?
    ensures var cs := ChordRun(chord, prev, depthMax, depth0, x, y, z, shape).value;
      RecordsSolid(cs.placed, x, cs.allocs)
  {
    if |chord| > 0 {
      var init := chord[..|chord| - 1];
      var cs0 := ChordRun(init, prev, depthMax, depth0, x, y, z, shape).value;
      ChordRecordsSolid(init, prev, depthMax, depth0, x, y, z, shape);
      var cs := ChordRun(chord, prev, depthMax, depth0, x, y, z, shape).value;
      NoteStepOk(cs0, chord[|chord| - 1], prev, depthMax, x, y, z, shape);
      forall v
        ensures v in cs.allocs <==>
          exists i | 0 <= i < |cs.placed| :: SlotOf(cs.placed[i], x) == v && InstrumentBlock(cs.placed[i].note.instrument).id != Air
      {
        if exists i | 0 <= i < |cs.placed| :: SlotOf(cs.placed[i], x) == v && InstrumentBlock(cs.placed[i].note.instrument).id != Air {
          var i :| 0 <= i < |cs.placed| && SlotOf(cs.placed[i], x) == v && InstrumentBlock(cs.placed[i].note.instrument).id != Air;
          if i < |cs0.placed| {
            assert cs0.placed[i] == cs.placed[i];
          }
        }
        if v in cs0.allocs {
          var i :| 0 <= i < |cs0.placed| && SlotOf(cs0.placed[i], x) == v && InstrumentBlock(cs0.placed[i].note.instrument).id != Air;
          assert cs.placed[i] == cs0.placed[i];
        }
      }
    }
  }

  /** A chord that runs to the end leaves depth_reached at the larger of
      its old value and the slot after the chord's last note. */
  lemma {:induction false} ChordDepth(chord: seq<string>, prev: seq<int>, depthMax: int, depth0: int,
                                     x: int, y: int, z: int, shape: Shape)
    requires ChordRun(chord, prev, depthMax, depth0, x, y, z, shape).Ok?
    ensures var cs := ChordRun(chord, prev, depthMax, depth0, x, y, z, shape).value;
      cs.depthReached ==
        (if |cs.placed| == 0 || SlotOf(cs.placed[|cs.placed| - 1], x) + 1 <= depth0 then depth0
         else SlotOf(cs.placed[|cs.placed| - 1], x) + 1)
  {
    if |chord| > 0 {
      var init := chord[..|chord| - 1];
      var cs0 := ChordRun(init, prev, depthMax, depth0, x, y, z, shape).value;
      ChordDepth(init, prev, depthMax, depth0, x, y, z, shape);
      ChordLaidOut(init, prev, depthMax, depth0, x, y, z, shape);
      SkipSelects(cs0.attempt, prev, depthMax);
      NoteStepOk(cs0, chord[|chord| - 1], prev, depthMax, x, y, z, shape);
    }
  }

  /** `gen_notes`' allocation of one chord: a chord that runs to the end
      has the layout ChordLayout describes, its slots strictly increase,
      the slots it records for the next event are exactly its non-air
      ones, and depth_reached becomes the larger of its old value and the
      slot after the chord's last. */
  lemma ChordAllocation(chord: seq<string>, prev: seq<int>, depthMax: int, depth0: int,
                        x: int, y: int, z: int, shape: Shape)
    requires ChordRun(chord, prev, depthMax, depth0, x, y, z, shape).Ok?
    ensures var cs := ChordRun(chord, prev, depthMax, depth0, x, y, z, shape).value;
      ChordLayout(chord, prev, x, y, z, shape, cs.placed) &&
      (forall i, j | 0 <= i < j < |cs.placed| :: SlotOf(cs.placed[i], x) < SlotOf(cs.placed[j], x)) &&
      RecordsSolid(cs.placed, x, cs.allocs) &&
      cs.depthReached ==
        (if |cs.placed| == 0 || SlotOf(cs.placed[|cs.placed| - 1], x) + 1 <= depth0 then depth0
         else SlotOf(cs.placed[|cs.placed| - 1], x) + 1)
    ensures var cs := ChordRun(chord, prev, depthMax, depth0, x, y, z, shape).value;
      forall i | 0 <= i < |cs.placed| :: 0 <= SlotOf(cs.placed[i], x) < cs.depthReached
  {
    var cs := ChordRun(chord, prev, depthMax, depth0, x, y, z, shape).value;
    ChordLaidOut(chord, prev, depthMax, depth0, x, y, z, shape);
    LayoutIncreasing(chord, prev, x, y, z, shape, cs.placed);
    ChordRecordsSolid(chord, prev, depthMax, depth0, x, y, z, shape);
    ChordDepth(chord, prev, depthMax, depth0, x, y, z, shape);
    if |cs.placed| > 0 {
      assert NoteLaidOut(chord[0], prev, SearchFrom(cs.placed, 0, x), x, y, z, shape, cs.placed[0]);
      forall i | 0 <= i < |cs.placed|
        ensures 0 <= SlotOf(cs.placed[i], x) < cs.depthReached
      {
        if 0 < i < |cs.placed| - 1 {
          assert SlotOf(cs.placed[0], x) < SlotOf(cs.placed[i], x) < SlotOf(cs.placed[|cs.placed| - 1], x);
        } else if i == 0 && 0 < |cs.placed| - 1 {
          assert SlotOf(cs.placed[0], x) < SlotOf(cs.placed[|cs.placed| - 1], x);
        } else if 0 < i {
          assert SlotOf(cs.placed[0], x) < SlotOf(cs.placed[i], x);
        }
      }
    }
  }

  /** Without allocations from the previous event, the skip never fails:
      a chord that follows an event on the lowest row, or starts a column,
      never raises PolyphonyException. */
  lemma {:induction false} NoPolyphonyWithoutPrev(chord: seq<string>, depthMax: int, depth0: int,
                                                 x: int, y: int, z: int, shape: Shape)
    ensures ChordRun(chord, [], depthMax, depth0, x, y, z, shape) != Err(PolyphonyException)
  {
    if |chord| > 0 {
      var init := chord[..|chord| - 1];
      NoPolyphonyWithoutPrev(init, depthMax, depth0, x, y, z, shape);
      match ChordRun(init, [], depthMax, depth0, x, y, z, shape)
      case Err(e) =>
      case Ok(cs) =>
        assert Skip(cs.attempt, [], depthMax) == Ok(cs.attempt);
    }
  }

  /** The slot after a note is taken without a depth check, so a chord of
      more notes than depth_max with no allocations from the previous event
      runs off the canvas (IndexError) instead of raising
      PolyphonyException: two middle Cs with depth_max 1 on a canvas one
      slot deep. */
  lemma ChordOverflowIndexError()
    ensures ChordRun(["C4"], [], 1, 0, 0, 3, 1, Shape(6, 2, 1)).Ok?
    ensures ChordRun(["C4", "C4"], [], 1, 0, 0, 3, 1, Shape(6, 2, 1)) == Err(IndexError)
  {
    var c := ["C4", "C4"];
    assert c[..1] == ["C4"];
    assert ["C4"][..0] == [];
    assert LookupNote("C4") == Some(Note(Harp, 6));
  }

  /** What one event that succeeds does: it lays out its chord at the
      row and column of its time index, appends the chord's placements,
      passes on the chord's allocations and depth_reached, and advances
      the time index by its scaled duration. */
  lemma EventStepOk(ns: NotesState, ev: Event, x: int, y: int, z: int, rows: int,
                    depthMax: int, lcd: int, shape: Shape)
    requires EventStep(ns, ev, x, y, z, rows, depthMax, lcd, shape).Ok?
    ensures rows != 0
    ensures var row := FloorMod(ns.i, rows);
      var col := TruncDiv(ns.i, rows);
      var prev := if row == 0 then [] else ns.prev;
      var cr := ChordRun(ev.chord, prev, depthMax, ns.depthReached, x, y + (2 * (rows - row) - 1),
                         z + (col * 2 + 1), shape);
      cr.Ok? && ParseDuration(lcd, ev.duration).Ok? &&
      EventStep(ns, ev, x, y, z, rows, depthMax, lcd, shape).value ==
        NotesState(cr.value.allocs, cr.value.depthReached, ns.i + ParseDuration(lcd, ev.duration).value,
                   ns.placed + cr.value.placed)
  {
  }

  /** One event that succeeds: its chord goes to column TruncDiv(i, rows)
      and row FloorMod(i, rows), at height y + 2 * (rows - row) - 1 and
      width z + 2 * col + 1, laid out against the previous event's
      allocations unless it starts a column; the allocations passed on are
      its non-air slots, depth_reached grows as ChordAllocation says, and
      the time index advances by the event's scaled duration. */
  lemma EventAllocation(ns: NotesState, ev: Event, x: int, y: int, z: int, rows: int,
                        depthMax: int, lcd: int, shape: Shape)
    requires EventStep(ns, ev, x, y, z, rows, depthMax, lcd, shape).Ok?
    ensures rows != 0
    ensures var ns' := EventStep(ns, ev, x, y, z, rows, depthMax, lcd, shape).value;
      var row := FloorMod(ns.i, rows);
      var col := TruncDiv(ns.i, rows);
      var added := ns'.placed[|ns.placed|..];
      |ns.placed| <= |ns'.placed| && ns'.placed[..|ns.placed|] == ns.placed &&
      ChordLayout(ev.chord, if row == 0 then [] else ns.prev, x, y + (2 * (rows - row) - 1), z + (col * 2 + 1),
                  shape, added) &&
      RecordsSolid(added, x, ns'.prev) &&
      (forall j | 0 <= j < |added| :: 0 <= SlotOf(added[j], x) < ns'.depthReached) &&
      ns'.depthReached ==
        (if |added| == 0 || SlotOf(added[|added| - 1], x) + 1 <= ns.depthReached then ns.depthReached
         else SlotOf(added[|added| - 1], x) + 1) &&
      ParseDuration(lcd, ev.duration).Ok? && ns'.i == ns.i + ParseDuration(lcd, ev.duration).value
  {
    EventStepOk(ns, ev, x, y, z, rows, depthMax, lcd, shape);
    var row := FloorMod(ns.i, rows);
    var col := TruncDiv(ns.i, rows);
    var prev := if row == 0 then [] else ns.prev;
    ChordAllocation(ev.chord, prev, depthMax, ns.depthReached, x, y + (2 * (rows - row) - 1),
                    z + (col * 2 + 1), shape);
    var cs := ChordRun(ev.chord, prev, depthMax, ns.depthReached, x, y + (2 * (rows - row) - 1),
                       z + (col * 2 + 1), shape).value;
    var ns' := EventStep(ns, ev, x, y, z, rows, depthMax, lcd, shape).value;
    assert ns'.placed[|ns.placed|..] == cs.placed;
  }

  /** Where the notes placed so far sit: each at an odd height above y
      (between 1 and 2 * rows - 1 when rows is positive) and an odd width
      past z, in a slot at least 0 and below depth_reached, with both its
      cells on the canvas; depth_reached is 0 exactly when no note was
      placed, and otherwise the slot after some note's. */
  ghost predicate NotesPlaced(ns: NotesState, x: int, y: int, z: int, rows: int, shape: Shape)
  {
    (forall j | 0 <= j < |ns.placed| ::
       var p := ns.placed[j];
       0 <= SlotOf(p, x) < ns.depthReached &&
       (p.y - y) % 2 == 1 && (p.z - z) % 2 == 1 && (rows > 0 ==> 1 <= p.y - y <= 2 * rows - 1) &&
       Inside(shape, p.x, p.y, p.z) && Inside(shape, p.x, p.y - 1, p.z)) &&
    (|ns.placed| == 0 <==> ns.depthReached == 0) &&
    (|ns.placed| > 0 ==> exists j | 0 <= j < |ns.placed| :: SlotOf(ns.placed[j], x) + 1 == ns.depthReached)
  }

  /** Appending a chord laid out at row `row` and column `col` keeps
      NotesPlaced, when depth_reached grows as ChordAllocation says. */
  lemma ChordKeepsPlaced(ns: NotesState, ns': NotesState, chord: seq<string>, prev: seq<int>,
                         row: int, col: int, x: int, y: int, z: int, rows: int, shape: Shape)
    requires NotesPlaced(ns, x, y, z, rows, shape)
    requires rows > 0 ==> 0 <= row < rows
    requires |ns.placed| <= |ns'.placed| && ns'.placed[..|ns.placed|] == ns.placed
    requires ChordLayout(chord, prev, x, y + (2 * (rows - row) - 1), z + (col * 2 + 1), shape,
                         ns'.placed[|ns.placed|..])
    requires var added := ns'.placed[|ns.placed|..];
      (forall j | 0 <= j < |added| :: 0 <= SlotOf(added[j], x) < ns'.depthReached) &&
      ns'.depthReached ==
        (if |added| == 0 || SlotOf(added[|added| - 1], x) + 1 <= ns.depthReached then ns.depthReached
         else SlotOf(added[|added| - 1], x) + 1)
    ensures NotesPlaced(ns', x, y, z, rows, shape)
  {
    var added := ns'.placed[|ns.placed|..];
    var yc := y + (2 * (rows - row) - 1);
    var zc := z + (col * 2 + 1);
    forall j | 0 <= j < |ns'.placed|
      ensures var p := ns'.placed[j];
        0 <= SlotOf(p, x) < ns'.depthReached &&
        (p.y - y) % 2 == 1 && (p.z - z) % 2 == 1 && (rows > 0 ==> 1 <= p.y - y <= 2 * rows - 1) &&
        Inside(shape, p.x, p.y, p.z) && Inside(shape, p.x, p.y - 1, p.z)
    {
      if j < |ns.placed| {
        assert ns'.placed[j] == ns'.placed[..|ns.placed|][j] == ns.placed[j];
      } else {
        var k := j - |ns.placed|;
        assert ns'.placed[j] == added[k];
        assert NoteLaidOut(chord[k], prev, SearchFrom(added, k, x), x, yc, zc, shape, added[k]);
      }
    }
    if |added| > 0 && SlotOf(added[|added| - 1], x) + 1 > ns.depthReached {
      assert ns'.placed[|ns'.placed| - 1] == added[|added| - 1];
    } else if |ns.placed| > 0 {
      var j :| 0 <= j < |ns.placed| && SlotOf(ns.placed[j], x) + 1 == ns.depthReached;
      assert ns'.placed[j] == ns'.placed[..|ns.placed|][j];
    }
  }

  /** Every event that succeeds keeps NotesPlaced. */
  lemma EventKeepsPlaced(ns: NotesState, ev: Event, x: int, y: int, z: int, rows: int,
                         depthMax: int, lcd: int, shape: Shape)
    requires NotesPlaced(ns, x, y, z, rows, shape)
    requires EventStep(ns, ev, x, y, z, rows, depthMax, lcd, shape).Ok?
    ensures NotesPlaced(EventStep(ns, ev, x, y, z, rows, depthMax, lcd, shape).value, x, y, z, rows, shape)
  {
    EventAllocation(ns, ev, x, y, z, rows, depthMax, lcd, shape);
    var row := FloorMod(ns.i, rows);
    ChordKeepsPlaced(ns, EventStep(ns, ev, x, y, z, rows, depthMax, lcd, shape).value, ev.chord,
                     if row == 0 then [] else ns.prev, row, TruncDiv(ns.i, rows), x, y, z, rows, shape);
  }

  /** Where `gen_notes` puts its notes: a song that goes through leaves
      its placements as NotesPlaced says. */
  lemma {:induction false} NotesLayout(events: seq<Event>, x: int, y: int, z: int, rows: int,
                                      depthMax: int, lcd: int, shape: Shape)
    requires NotesRun(events, x, y, z, rows, depthMax, lcd, shape).Ok?
    ensures NotesPlaced(NotesRun(events, x, y, z, rows, depthMax, lcd, shape).value, x, y, z, rows, shape)
  {
    if |events| > 0 {
      var init := events[..|events| - 1];
      NotesLayout(init, x, y, z, rows, depthMax, lcd, shape);
      var ns0 := NotesRun(init, x, y, z, rows, depthMax, lcd, shape).value;
      EventKeepsPlaced(ns0, events[|events| - 1], x, y, z, rows, depthMax, lcd, shape);
    }
  }

  /** One note of a chord, at height y + yBase and width z + zBase: it
      takes the slot the skip selects, places its note block and instrument
      block, records the slot when the instrument block is not air, and
      raises depth_reached to the slot after it. The canvas holds the writes
      and entities of the chord's placements so far, and then of one more. */
  method PlaceNote(sf: Schematic, x: int, y: int, z: int, yBase: int, zBase: int,
                   token: string, prev: seq<int>, depthMax: int, cs: ChordState,
                   ghost ws: seq<Write>, ghost es: seq<Entity>, ghost g: Grid, ghost d: Grid)
    returns (r: Result<ChordState, Exception>)
    requires sf.Logged(ws + PlacedWrites(cs.placed), g, d) && sf.entities == es + PlacedEntities(cs.placed)
    modifies sf, sf.blocks, sf.data
    ensures sf.blocks == old(sf.blocks) && sf.data == old(sf.data)
    ensures r == NoteStep(cs, token, prev, depthMax, x, y + yBase, z + zBase, ShapeOf(sf))
    ensures r.Ok? ==>
      sf.Logged(ws + PlacedWrites(r.value.placed), g, d) && sf.entities == es + PlacedEntities(r.value.placed)
  {
    var py, pz := y + yBase, z + zBase;
    ghost var shape := ShapeOf(sf);
    var skipped := SkipTaken(cs.attempt, prev, depthMax);
    if skipped.Err? {
      return Err(skipped.error);
    }
    var attempt := skipped.value;
    var note := LookupNote(token);
    if note.None? {
      return Err(KeyError);
    }
    var n := note.value;
    if !sf.InBounds(x + attempt, py, pz) || !sf.InBounds(x + attempt, py - 1, pz) {
      return Err(IndexError);
    }
    var block := sf.PlaceNoteBlock(x, y, z, attempt, yBase, zBase, n.instrument, n.pitch,
                                   ws + PlacedWrites(cs.placed), g, d);
    var allocs := cs.allocs;
    if block.id != Air {
      allocs := allocs + [attempt];
    }
    var depthReached := cs.depthReached;
    if attempt + 1 > depthReached {
      depthReached := attempt + 1;
    }
    var p := Placed(x + attempt, py, pz, n);
    PlacedSnoc(ws, es, cs.placed, p);
    r := Ok(ChordState(attempt + 1, allocs, cs.placed + [p], depthReached));
    NoteStepPlaces(cs, token, prev, depthMax, x, py, pz, shape, attempt, n);
    assert ShapeOf(sf) == shape;
  }

  /** A note that finds a free slot a, a table entry n and room on the
      canvas moves the chord on to slot a + 1 with one more placement. */
  lemma NoteStepPlaces(cs: ChordState, token: string, prev: seq<int>, depthMax: int,
                       x: int, y: int, z: int, shape: Shape, a: int, n: Note)
    requires Skip(cs.attempt, prev, depthMax) == Ok(a) && LookupNote(token) == Some(n)
    requires Inside(shape, x + a, y, z) && Inside(shape, x + a, y - 1, z)
    ensures NoteStep(cs, token, prev, depthMax, x, y, z, shape) ==
      Ok(ChordState(a + 1, if InstrumentBlock(n.instrument).id != Air then cs.allocs + [a] else cs.allocs,
                    cs.placed + [Placed(x + a, y, z, n)], if a + 1 > cs.depthReached then a + 1 else cs.depthReached))
  {
  }

  /** The notes of one chord, in order, from slot 0. */
  method PlaceChord(sf: Schematic, x: int, y: int, z: int, yBase: int, zBase: int,
                    chord: seq<string>, prev: seq<int>, depthMax: int, depth0: int,
                    ghost ws: seq<Write>, ghost es: seq<Entity>, ghost g: Grid, ghost d: Grid)
    returns (r: Result<ChordState, Exception>)
    requires sf.Logged(ws, g, d) && sf.entities == es
    modifies sf, sf.blocks, sf.data
    ensures sf.blocks == old(sf.blocks) && sf.data == old(sf.data)
    ensures r == ChordRun(chord, prev, depthMax, depth0, x, y + yBase, z + zBase, ShapeOf(sf))
    ensures r.Ok? ==>
      sf.Logged(ws + PlacedWrites(r.value.placed), g, d) && sf.entities == es + PlacedEntities(r.value.placed)
  {
    ghost var shape := ShapeOf(sf);
    var cs := ChordState(0, [], [], depth0);
    assert ws + PlacedWrites(cs.placed) == ws && es + PlacedEntities(cs.placed) == es;
    for k := 0 to |chord|
      invariant sf.blocks == old(sf.blocks) && sf.data == old(sf.data) && ShapeOf(sf) == shape
      invariant ChordRun(chord[..k], prev, depthMax, depth0, x, y + yBase, z + zBase, shape) == Ok(cs)
      invariant sf.Logged(ws + PlacedWrites(cs.placed), g, d) && sf.entities == es + PlacedEntities(cs.placed)
    {
      var next := PlaceNote(sf, x, y, z, yBase, zBase, chord[k], prev, depthMax, cs, ws, es, g, d);
      assert ShapeOf(sf) == shape;
      ChordRunStep(chord, k, prev, depthMax, depth0, x, y + yBase, z + zBase, shape, cs, next);
      if next.Err? {
        return next;
      }
      cs := next.value;
    }
    assert chord[..|chord|] == chord;
    return Ok(cs);
  }

  /** One event of `gen_notes`: the chord at the event's cell, then the
      advance of i by the event's scaled duration. The canvas holds the
      writes and entities of the placements so far, and then of the event's
      too. */
  method PlaceEvent(sf: Schematic, x: int, y: int, z: int, rows: int, depthMax: int, lcd: int,
                    ev: Event, ns: NotesState, ghost ws: seq<Write>, ghost es: seq<Entity>, ghost g: Grid, ghost d: Grid)
    returns (r: Result<NotesState, Exception>)
    requires sf.Logged(ws + PlacedWrites(ns.placed), g, d) && sf.entities == es + PlacedEntities(ns.placed)
    modifies sf, sf.blocks, sf.data
    ensures sf.blocks == old(sf.blocks) && sf.data == old(sf.data)
    ensures r == EventStep(ns, ev, x, y, z, rows, depthMax, lcd, ShapeOf(sf))
    ensures r.Ok? ==>
      sf.Logged(ws + PlacedWrites(r.value.placed), g, d) && sf.entities == es + PlacedEntities(r.value.placed)
  {
    if rows == 0 {
      return Err(ZeroDivisionError);
    }
    var col := TruncDiv(ns.i, rows);
    var row := FloorMod(ns.i, rows);
    var yBase := 2 * (rows - row) - 1;
    var zBase := col * 2 + 1;
    var prevAllocs := if row == 0 then [] else ns.prev;
    var c := PlaceChord(sf, x, y, z, yBase, zBase, ev.chord, prevAllocs, depthMax, ns.depthReached,
                        ws + PlacedWrites(ns.placed), es + PlacedEntities(ns.placed), g, d);
    if c.Err? {
      return Err(c.error);
    }
    PlacedAppend(ws, es, ns.placed, c.value.placed);
    var dur := ParseDuration(lcd, ev.duration);
    if dur.Err? {
      return Err(dur.error);
    }
    return Ok(NotesState(c.value.allocs, c.value.depthReached, ns.i + dur.value, ns.placed + c.value.placed));
  }

  /** `gen_notes`: places the song's note blocks and returns depth_reached;
      the canvas and its entities then hold the writes and entities of the
      placements NotesRun makes. */
  method GenNotes(sf: Schematic, x: int, y: int, z: int, rows: int, depthMax: int, song: SongInfo,
                  ghost ws: seq<Write>, ghost g: Grid, ghost d: Grid) returns (r: Result<int, Exception>)
    requires sf.Logged(ws, g, d)
    modifies sf, sf.blocks, sf.data
    ensures sf.blocks == old(sf.blocks) && sf.data == old(sf.data)
    ensures r == GenNotesOf(song.events, x, y, z, rows, depthMax, song.lcd, ShapeOf(sf))
    ensures r.Ok? ==>
      var placed := NotesRun(song.events, x, y, z, rows, depthMax, song.lcd, ShapeOf(sf)).value.placed;
      sf.Logged(ws + PlacedWrites(placed), g, d) && sf.entities == old(sf.entities) + PlacedEntities(placed)
  {
    ghost var shape := ShapeOf(sf);
    var ns := NotesState([], 0, 0, []);
    assert ws + PlacedWrites(ns.placed) == ws && old(sf.entities) + PlacedEntities(ns.placed) == sf.entities;
    for e := 0 to |song.events|
      invariant sf.blocks == old(sf.blocks) && sf.data == old(sf.data) && ShapeOf(sf) == shape
      invariant NotesRun(song.events[..e], x, y, z, rows, depthMax, song.lcd, shape) == Ok(ns)
      invariant sf.Logged(ws + PlacedWrites(ns.placed), g, d) && sf.entities == old(sf.entities) + PlacedEntities(ns.placed)
    {
      var next := PlaceEvent(sf, x, y, z, rows, depthMax, song.lcd, song.events[e], ns, ws, old(sf.entities), g, d);
      assert ShapeOf(sf) == shape;
      NotesRunStep(song.events, e, x, y, z, rows, depthMax, song.lcd, shape, ns, next);
      if next.Err? {
        return Err(next.error);
      }
      ns := next.value;
    }
    assert song.events[..|song.events|] == song.events;
    return Ok(ns.depthReached);
  }
}
