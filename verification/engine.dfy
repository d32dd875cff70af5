/** The timing arithmetic of `gen_engine`: after the two staircases, the
    engine still owes the clock a delay budget, which it pays with torch
    towers of 4 * row cells, two 1-tick wires per row, an optional pair of
    4-tick repeaters and a final repeater stage. The row is the first whose
    window [(t + 2) * row, (t + 2) * row + 7] holds the budget. */
module Engine {
  import opened Wrappers
  import opened NumberTheory
  import opened Blocks

  /** The tuned engine: the selected row, whether the extra 4-tick
      repeaters are placed, and the stage of the last repeaters. */
  datatype Timing = Timing(row: int, extended: bool, stage: int)

  /** The delay left for the towers, `t * (int(rows / 2) - 1) - 5`. */
  function DelayBudget(rows: int, t: int): int
  {
    t * (TruncDiv(rows, 2) - 1) - 5
  }

  /** Row `row`'s window holds the budget b. */
  predicate InWindow(b: int, t: int, row: int)
  {
    (t + 2) * row <= b <= (t + 2) * row + 7
  }

  /** The scan over rows `row`, `row + 1`, ..., `rows - 1`: it fails as
      soon as the budget falls below a window, and stops at the first
      window that holds it. */
  function ScanRows(b: int, t: int, rows: int, row: int): Result<int, Exception>
    decreases rows - row
  {
    if row >= rows then Err(TorchTowerException)
    else if b < (t + 2) * row then Err(TorchTowerException)
    else if b <= (t + 2) * row + 7 then Ok(row)
    else ScanRows(b, t, rows, row + 1)
  }

  /** The deductions after the selection: row * t for the towers, 2 * row
      for the wires, 4 more when at least 4 remain, the rest as the last
      repeater stage minus 1. */
  function Tune(b: int, t: int, row: int): Timing
  {
    var rest := b - row * t - 2 * row;
    if rest >= 4 then Timing(row, true, 1 + (rest - 4)) else Timing(row, false, 1 + rest)
  }

  /** The engine timing for a budget scan from row 1. */
  function EngineTimingOf(rows: int, t: int): Result<Timing, Exception>
  {
    var b := DelayBudget(rows, t);
    match ScanRows(b, t, rows, 1)
    case Ok(row) => Ok(Tune(b, t, row))
    case Err(e) => Err(e)
  }

  /** The row scan and delay bookkeeping of `gen_engine`. */
  method EngineTiming(rows: int, t: int) returns (r: Result<Timing, Exception>)
    ensures r == EngineTimingOf(rows, t)
  {
    var delayRemaining := t * (TruncDiv(rows, 2) - 1) - 5;
    var rowSelect := -1;
    var row := 1;
    while row < rows
      invariant 1 <= row
      invariant ScanRows(delayRemaining, t, rows, row) == ScanRows(delayRemaining, t, rows, 1)
      invariant rowSelect == -1
      decreases rows - row
    {
      var delayLo := (t + 2) * row;
      if delayRemaining < delayLo {
        return Err(TorchTowerException);
      }
      var delayHi := (t + 2) * row + 7;
      if delayRemaining <= delayHi {
        rowSelect := row;
        break;
      }
      row := row + 1;
    }
    if rowSelect == -1 {
      return Err(TorchTowerException);
    }
    delayRemaining := delayRemaining - row * t;
    delayRemaining := delayRemaining - 2 * row;
    var extended := false;
    if delayRemaining >= 4 {
      extended := true;
      delayRemaining := delayRemaining - 4;
    }
    return Ok(Timing(row, extended, 1 + delayRemaining));
  }

  /** With t + 2 >= 0 the windows start no earlier as the row grows. */
  lemma WindowLoMonotone(t: int, row: int, row': int)
    requires t + 2 >= 0 && row <= row'
    ensures (t + 2) * row <= (t + 2) * row'
  {
    MulMonotone(row, row', t + 2);
  }

  /** The scan from `row` selects the first row in [row, rows) whose window
      holds b, and fails exactly when there is none. */
  lemma {:induction false} ScanRowsSelects(b: int, t: int, rows: int, row: int)
    requires t + 2 >= 0
    ensures ScanRows(b, t, rows, row).Ok? ==>
      var s := ScanRows(b, t, rows, row).value;
      row <= s < rows && InWindow(b, t, s) && forall k | row <= k < s :: !InWindow(b, t, k)
    ensures ScanRows(b, t, rows, row).Err? <==> forall k | row <= k < rows :: !InWindow(b, t, k)
    ensures ScanRows(b, t, rows, row).Err? ==> ScanRows(b, t, rows, row).error == TorchTowerException
    decreases rows - row
  {
    if row >= rows {
    } else if b < (t + 2) * row {
      forall k | row <= k < rows
        ensures !InWindow(b, t, k)
      {
        WindowLoMonotone(t, row, k);
      }
    } else if b <= (t + 2) * row + 7 {
      assert InWindow(b, t, row);
    } else {
      ScanRowsSelects(b, t, rows, row + 1);
    }
  }

  /** The deductions leave a valid repeater stage, 1 to 4, and together
      they pay the whole budget: towers, wires, the optional 4-tick pair
      and the stage's own delay add up to b. */
  lemma TuneStage(b: int, t: int, row: int)
    requires InWindow(b, t, row)
    ensures 1 <= Tune(b, t, row).stage <= 4
    ensures row * t + 2 * row + (if Tune(b, t, row).extended then 4 else 0) + Tune(b, t, row).stage - 1 == b
    ensures Tune(b, t, row).extended <==> b - (t + 2) * row >= 4
  {
    assert (t + 2) * row == row * t + 2 * row;
  }

  /** `gen_engine` raises TorchTowerException exactly when no row in
      [1, rows) has a window holding the budget; otherwise it selects the
      first such row and tunes it to a stage the repeater table holds. */
  lemma EngineTimingSpec(rows: int, t: int)
    requires t + 2 >= 0
    ensures EngineTimingOf(rows, t).Err? <==>
      forall k | 1 <= k < rows :: !InWindow(DelayBudget(rows, t), t, k)
    ensures EngineTimingOf(rows, t).Err? ==> EngineTimingOf(rows, t).error == TorchTowerException
    ensures EngineTimingOf(rows, t).Ok? ==>
      var tm := EngineTimingOf(rows, t).value;
      1 <= tm.row < rows && InWindow(DelayBudget(rows, t), t, tm.row) &&
      (forall k | 1 <= k < tm.row :: !InWindow(DelayBudget(rows, t), t, k)) &&
      1 <= tm.stage <= 4 && RepeaterLookup(West, tm.stage).Some? &&
      tm.row * t + 2 * tm.row + (if tm.extended then 4 else 0) + tm.stage - 1 == DelayBudget(rows, t)
  {
    var b := DelayBudget(rows, t);
    ScanRowsSelects(b, t, rows, 1);
    if ScanRows(b, t, rows, 1).Ok? {
      var tm := Tune(b, t, ScanRows(b, t, rows, 1).value);
      TuneStage(b, t, tm.row);
      RepeaterTableEncoding(West, tm.stage);
    }
  }
}
