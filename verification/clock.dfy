/** The delay staircase of the engine: `gen_delay_staircase`, a two-row
    staircase of repeaters whose full steps delay the signal by 8 redstone
    ticks each and whose last step by the rest of the delay modulo 8 (8
    when there is none). It is a sequence of `place_block` writes,
    specified by the write list it appends to the canvas's log. */
module Clock {
  import opened Wrappers
  import opened Blocks
  import opened Canvas

  /** The delay of the staircase's last step: delay mod 8, or 8 when that
      is 0. */
  function LastStepDelay(delay: int): (r: int)
    ensures 1 <= r <= 8
  {
    if delay % 8 > 0 then delay % 8 else 8
  }

  function Min(a: int, b: int): int
  {
    if a <= b then a else b
  }

  /** The first three writes: dust at the foot, the block above it and the
      block at the top. */
  function StaircaseHead(x: int, y: int, z: int, block: Block): seq<Write>
  {
    [Write(x, y, z, DustBlock), Write(x, y + 1, z, block), Write(x, y + 3, z, block)]
  }

  /** One full step at x offset 1 + depth: two 4-tick repeaters, one on
      each row, each on a block. */
  function StaircaseStep(x: int, y: int, z: int, depth: int, block: Block): seq<Write>
  {
    [Write(x + 1 + depth, y, z, block),
     Write(x + 1 + depth, y + 1, z, RepeaterBlock(West, 4)),
     Write(x + 1 + depth, y + 2, z, block),
     Write(x + 1 + depth, y + 3, z, RepeaterBlock(East, 4))]
  }

  /** The first n full steps. */
  function StaircaseSteps(x: int, y: int, z: int, n: nat, block: Block): seq<Write>
  {
    if n == 0 then [] else StaircaseSteps(x, y, z, n - 1, block) + StaircaseStep(x, y, z, n - 1, block)
  }

  /** The base of the last step at x offset d: the dark oak plank, then
      the slab over it when delay <= 4. */
  function TailBase(x: int, y: int, z: int, d: int, delay: int): seq<Write>
  {
    [Write(x + d, y, z, WiringBlock)] + (if delay <= 4 then [Write(x + d, y, z, WiringSlab)] else [])
  }

  /** The top of the last step: an east repeater of r - 4 ticks and the
      block past it when r > 4, dust otherwise. */
  function TailTop(x: int, y: int, z: int, d: int, r: int, block: Block): seq<Write>
    requires 1 <= r <= 8
  {
    if r > 4 then [Write(x + d, y + 3, z, RepeaterBlock(East, r - 4)), Write(x + d + 1, y + 3, z, block)]
    else [Write(x + d, y + 3, z, DustBlock)]
  }

  /** The middle of the last step: a west repeater of min(4, r) ticks on
      the lower row, the block on the upper. */
  function TailMiddle(x: int, y: int, z: int, d: int, r: int, block: Block): seq<Write>
    requires 1 <= r <= 8
  {
    [Write(x + d, y + 1, z, RepeaterBlock(West, Min(4, r))), Write(x + d, y + 2, z, block)]
  }

  /** The turn past the last step: the block, with dust above it. */
  function TailTurn(x: int, y: int, z: int, d: int, block: Block): seq<Write>
  {
    [Write(x + d + 1, y + 1, z, block), Write(x + d + 1, y + 2, z, DustBlock)]
  }

  /** The last step at x offset d = delay / 8 + 1, tuned to the remaining
      delay r = LastStepDelay(delay): base, middle, top, and the turn at
      offset d + 1. */
  function StaircaseTail(x: int, y: int, z: int, delay: nat, block: Block): seq<Write>
  {
    var d := delay / 8 + 1;
    var r := LastStepDelay(delay);
    TailBase(x, y, z, d, delay) + TailMiddle(x, y, z, d, r, block) + TailTop(x, y, z, d, r, block) +
    TailTurn(x, y, z, d, block)
  }

  /** Every write of `gen_delay_staircase`, in order. */
  function StaircaseWrites(x: int, y: int, z: int, delay: nat, block: Block): seq<Write>
  {
    StaircaseHead(x, y, z, block) + StaircaseSteps(x, y, z, delay / 8, block) + StaircaseTail(x, y, z, delay, block)
  }

  /** Every write of ws lies in the box [x0, x1] x [y0, y1] x {z}. */
  predicate WithinSlice(ws: seq<Write>, x0: int, x1: int, y0: int, y1: int, z: int)
  {
    forall i | 0 <= i < |ws| :: x0 <= ws[i].x <= x1 && y0 <= ws[i].y <= y1 && ws[i].z == z
  }

  lemma WithinSliceAppend(a: seq<Write>, b: seq<Write>, x0: int, x1: int, y0: int, y1: int, z: int)
    requires WithinSlice(a, x0, x1, y0, y1, z) && WithinSlice(b, x0, x1, y0, y1, z)
    ensures WithinSlice(a + b, x0, x1, y0, y1, z)
  {
    forall i | 0 <= i < |a + b|
      ensures x0 <= (a + b)[i].x <= x1 && y0 <= (a + b)[i].y <= y1 && (a + b)[i].z == z
    {
      if i >= |a| {
        assert (a + b)[i] == b[i - |a|];
      }
    }
  }

  /** The writes of ws all land on the canvas when the corners of their
      box do. */
  lemma SliceOnCanvas(sf: Schematic, ws: seq<Write>, x0: int, x1: int, y0: int, y1: int, z: int)
    requires WithinSlice(ws, x0, x1, y0, y1, z) && sf.InBounds(x0, y0, z) && sf.InBounds(x1, y1, z)
    ensures forall i | 0 <= i < |ws| :: sf.InBounds(ws[i].x, ws[i].y, ws[i].z)
  {
  }

  lemma StepWithin(x: int, y: int, z: int, depth: int, block: Block)
    ensures WithinSlice(StaircaseStep(x, y, z, depth, block), x + 1 + depth, x + 1 + depth, y, y + 3, z)
  {
  }

  lemma {:induction false} StepsWithin(x: int, y: int, z: int, n: nat, block: Block)
    ensures WithinSlice(StaircaseSteps(x, y, z, n, block), x + 1, x + n, y, y + 3, z)
  {
    if n > 0 {
      StepsWithin(x, y, z, n - 1, block);
      StepWithin(x, y, z, n - 1, block);
      WithinSliceAppend(StaircaseSteps(x, y, z, n - 1, block), StaircaseStep(x, y, z, n - 1, block),
                        x + 1, x + n, y, y + 3, z);
    }
  }

  lemma TailWithin(x: int, y: int, z: int, delay: nat, block: Block)
    ensures WithinSlice(StaircaseTail(x, y, z, delay, block), x + delay / 8 + 1, x + delay / 8 + 2, y, y + 3, z)
  {
    var d := delay / 8 + 1;
    var r := LastStepDelay(delay);
    var a := TailBase(x, y, z, d, delay);
    var b := TailMiddle(x, y, z, d, r, block);
    var c := TailTop(x, y, z, d, r, block);
    var e := TailTurn(x, y, z, d, block);
    assert WithinSlice(a, x + d, x + d + 1, y, y + 3, z);
    assert WithinSlice(b, x + d, x + d + 1, y, y + 3, z);
    assert WithinSlice(c, x + d, x + d + 1, y, y + 3, z);
    assert WithinSlice(e, x + d, x + d + 1, y, y + 3, z);
    WithinSliceAppend(a, b, x + d, x + d + 1, y, y + 3, z);
    WithinSliceAppend(a + b, c, x + d, x + d + 1, y, y + 3, z);
    WithinSliceAppend(a + b + c, e, x + d, x + d + 1, y, y + 3, z);
  }

  /** The staircase stays in the slice z, its x offsets 0 to delay / 8 + 2
      and its y offsets 0 to 3. */
  lemma StaircaseWithin(x: int, y: int, z: int, delay: nat, block: Block)
    ensures WithinSlice(StaircaseWrites(x, y, z, delay, block), x, x + delay / 8 + 2, y, y + 3, z)
  {
    var x1 := x + delay / 8 + 2;
    var head := StaircaseHead(x, y, z, block);
    var steps := StaircaseSteps(x, y, z, delay / 8, block);
    var tail := StaircaseTail(x, y, z, delay, block);
    StepsWithin(x, y, z, delay / 8, block);
    TailWithin(x, y, z, delay, block);
    WithinSliceWiden(steps, x + 1, x + delay / 8, x, x1, y, y + 3, z);
    WithinSliceWiden(tail, x + delay / 8 + 1, x1, x, x1, y, y + 3, z);
    assert WithinSlice(head, x, x1, y, y + 3, z);
    WithinSliceAppend(head, steps, x, x1, y, y + 3, z);
    WithinSliceAppend(head + steps, tail, x, x1, y, y + 3, z);
  }

  lemma WithinSliceWiden(ws: seq<Write>, x0: int, x1: int, x0': int, x1': int, y0: int, y1: int, z: int)
    requires WithinSlice(ws, x0, x1, y0, y1, z) && x0' <= x0 && x1 <= x1'
    ensures WithinSlice(ws, x0', x1', y0, y1, z)
  {
  }

  /** `gen_delay_staircase`: appends the staircase's writes to the canvas
      and returns its depth, delay / 8 + 3. */
  method GenDelayStaircase(sf: Schematic, x: int, y: int, z: int, delay: nat, block: Block, slab: Block,
                           ghost ws: seq<Write>, ghost g: Grid, ghost d: Grid) returns (depth: int)
    requires sf.Logged(ws, g, d)
    requires sf.InBounds(x, y, z) && sf.InBounds(x + delay / 8 + 2, y + 3, z)
    modifies sf.blocks, sf.data
    ensures depth == delay / 8 + 3
    ensures sf.Logged(ws + StaircaseWrites(x, y, z, delay, block), g, d)
  {
    var depthMax := delay / 8 + 2;
    ghost var head := StaircaseHead(x, y, z, block);
    assert WithinSlice(head, x, x, y, y + 3, z);
    SliceOnCanvas(sf, head, x, x, y, y + 3, z);
    sf.PlaceBlocks(StaircaseHead(x, y, z, block), ws, g, d);
    ghost var log := ws + head;
    StepsLog(log, x, y, z, 0, block);
    for depth := 0 to depthMax - 2
      invariant sf.Logged(log + StaircaseSteps(x, y, z, depth, block), g, d)
    {
      StepWithin(x, y, z, depth, block);
      SliceOnCanvas(sf, StaircaseStep(x, y, z, depth, block), x + 1 + depth, x + 1 + depth, y, y + 3, z);
      sf.PlaceBlocks(StaircaseStep(x, y, z, depth, block), log + StaircaseSteps(x, y, z, depth, block), g, d);
      StepsLog(log, x, y, z, depth + 1, block);
    }
    TailWithin(x, y, z, delay, block);
    SliceOnCanvas(sf, StaircaseTail(x, y, z, delay, block), x + depthMax - 1, x + depthMax, y, y + 3, z);
    sf.PlaceBlocks(StaircaseTail(x, y, z, delay, block), log + StaircaseSteps(x, y, z, depthMax - 2, block), g, d);
    StaircaseLog(ws, x, y, z, delay, block);
    return depthMax + 1;
  }

  lemma StepsLog(log: seq<Write>, x: int, y: int, z: int, n: nat, block: Block)
    ensures n == 0 ==> log + StaircaseSteps(x, y, z, n, block) == log
    ensures n > 0 ==>
      (log + StaircaseSteps(x, y, z, n - 1, block) + StaircaseStep(x, y, z, n - 1, block) ==
       log + StaircaseSteps(x, y, z, n, block))
  {
  }

  lemma StaircaseLog(ws: seq<Write>, x: int, y: int, z: int, delay: nat, block: Block)
    ensures ws + StaircaseHead(x, y, z, block) + StaircaseSteps(x, y, z, delay / 8, block) +
      StaircaseTail(x, y, z, delay, block) == ws + StaircaseWrites(x, y, z, delay, block)
  {
  }

  /** The delay stage of a repeater state. */
  function StageOf(r: RepeaterState): int
  {
    RepeaterCode(r) / 4 + 1
  }

  /** The stage of w's block, if it is a repeater. */
  function RepeaterDelay(w: Write): seq<int>
  {
    if w.block.state.Repeater? then [StageOf(w.block.state.repeater)] else []
  }

  /** The stages of the repeaters among the writes ws, in order. */
  function RepeaterDelays(ws: seq<Write>): seq<int>
  {
    if |ws| == 0 then [] else RepeaterDelays(ws[..|ws| - 1]) + RepeaterDelay(ws[|ws| - 1])
  }

  lemma {:induction false} RepeaterDelaysAppend(a: seq<Write>, b: seq<Write>)
    ensures RepeaterDelays(a + b) == RepeaterDelays(a) + RepeaterDelays(b)
    decreases |b|
  {
    if b == [] {
      assert a + b == a;
    } else {
      var init := b[..|b| - 1];
      assert (a + b)[..|a + b| - 1] == a + init;
      RepeaterDelaysAppend(a, init);
    }
  }

  lemma RepeaterDelaysPair(v: Write, w: Write)
    ensures RepeaterDelays([v]) == RepeaterDelay(v)
    ensures RepeaterDelays([v, w]) == RepeaterDelay(v) + RepeaterDelay(w)
  {
    assert [v][..0] == [];
    assert [v, w][..1] == [v];
  }

  /** The table's repeaters have the stage they were looked up with. */
  lemma RepeaterStage(d: Direction, stage: Stage)
    requires Horizontal(d)
    ensures RepeaterBlock(d, stage).state.Repeater?
    ensures StageOf(RepeaterBlock(d, stage).state.repeater) == stage
  {
  }

  function Sum(s: seq<int>): int
  {
    if |s| == 0 then 0 else Sum(s[..|s| - 1]) + s[|s| - 1]
  }

  lemma {:induction false} SumAppend(a: seq<int>, b: seq<int>)
    ensures Sum(a + b) == Sum(a) + Sum(b)
    decreases |b|
  {
    if b == [] {
      assert a + b == a;
    } else {
      assert (a + b)[..|a + b| - 1] == a + b[..|b| - 1];
      SumAppend(a, b[..|b| - 1]);
    }
  }

  /** The stages of n full steps: 4 and 4 for each. */
  function FullStepDelays(n: nat): seq<int>
  {
    if n == 0 then [] else FullStepDelays(n - 1) + [4, 4]
  }

  /** The stages of the last step: r alone, or 4 and r - 4 when r > 4. */
  function LastStepDelays(r: int): seq<int>
  {
    if r > 4 then [4, r - 4] else [r]
  }

  /** The repeater stages along the staircase. */
  function StaircaseDelays(delay: nat): seq<int>
  {
    FullStepDelays(delay / 8) + LastStepDelays(LastStepDelay(delay))
  }

  lemma StepDelays(x: int, y: int, z: int, depth: int, block: Block)
    requires !block.state.Repeater?
    ensures RepeaterDelays(StaircaseStep(x, y, z, depth, block)) == [4, 4]
  {
    var step := StaircaseStep(x, y, z, depth, block);
    assert step == [step[0], step[1]] + [step[2], step[3]];
    RepeaterDelaysAppend([step[0], step[1]], [step[2], step[3]]);
    RepeaterDelaysPair(step[0], step[1]);
    RepeaterDelaysPair(step[2], step[3]);
    RepeaterStage(West, 4);
    RepeaterStage(East, 4);
    assert RepeaterDelay(step[0]) == [] && RepeaterDelay(step[2]) == [];
    assert RepeaterDelay(step[1]) == [4] && RepeaterDelay(step[3]) == [4];
  }

  lemma {:induction false} StepsDelays(x: int, y: int, z: int, n: nat, block: Block)
    requires !block.state.Repeater?
    ensures RepeaterDelays(StaircaseSteps(x, y, z, n, block)) == FullStepDelays(n)
  {
    if n > 0 {
      calc {
        RepeaterDelays(StaircaseSteps(x, y, z, n, block));
        RepeaterDelays(StaircaseSteps(x, y, z, n - 1, block) + StaircaseStep(x, y, z, n - 1, block));
        { RepeaterDelaysAppend(StaircaseSteps(x, y, z, n - 1, block), StaircaseStep(x, y, z, n - 1, block)); }
        RepeaterDelays(StaircaseSteps(x, y, z, n - 1, block)) + RepeaterDelays(StaircaseStep(x, y, z, n - 1, block));
        { StepsDelays(x, y, z, n - 1, block); StepDelays(x, y, z, n - 1, block); }
        FullStepDelays(n - 1) + [4, 4];
      }
    }
  }

  lemma TailBaseDelays(x: int, y: int, z: int, d: int, delay: int)
    ensures RepeaterDelays(TailBase(x, y, z, d, delay)) == []
  {
    var a := TailBase(x, y, z, d, delay);
    RepeaterDelaysPair(a[0], a[|a| - 1]);
  }

  lemma TailTopDelays(x: int, y: int, z: int, d: int, r: int, block: Block)
    requires 1 <= r <= 8 && !block.state.Repeater?
    ensures RepeaterDelays(TailTop(x, y, z, d, r, block)) == if r > 4 then [r - 4] else []
  {
    var c := TailTop(x, y, z, d, r, block);
    RepeaterDelaysPair(c[0], c[|c| - 1]);
    if r > 4 {
      RepeaterStage(East, r - 4);
      assert RepeaterDelay(c[0]) == [r - 4];
    }
  }

  lemma TailDelays(x: int, y: int, z: int, delay: nat, block: Block)
    requires !block.state.Repeater?
    ensures RepeaterDelays(StaircaseTail(x, y, z, delay, block)) == LastStepDelays(LastStepDelay(delay))
  {
    var d := delay / 8 + 1;
    var r := LastStepDelay(delay);
    var a := TailBase(x, y, z, d, delay);
    var b := TailMiddle(x, y, z, d, r, block);
    var c := TailTop(x, y, z, d, r, block);
    var e := TailTurn(x, y, z, d, block);
    assert RepeaterDelays(b) == [Min(4, r)] by {
      RepeaterDelaysPair(b[0], b[1]);
      RepeaterStage(West, Min(4, r));
    }
    assert RepeaterDelays(e) == [] by {
      RepeaterDelaysPair(e[0], e[1]);
    }
    calc {
      RepeaterDelays(StaircaseTail(x, y, z, delay, block));
      RepeaterDelays(a + b + c + e);
      { RepeaterDelaysAppend(a + b + c, e); RepeaterDelaysAppend(a + b, c); RepeaterDelaysAppend(a, b); }
      RepeaterDelays(a) + RepeaterDelays(b) + RepeaterDelays(c) + RepeaterDelays(e);
      { TailBaseDelays(x, y, z, d, delay); TailTopDelays(x, y, z, d, r, block); }
      [] + [Min(4, r)] + (if r > 4 then [r - 4] else []) + [];
      LastStepDelays(r);
    }
  }

  /** The repeaters the staircase places, read in order, are two 4-tick
      repeaters per full step and then the last step's: r alone, or 4 and
      r - 4 when r > 4. */
  lemma StaircaseRepeaters(x: int, y: int, z: int, delay: nat, block: Block)
    requires !block.state.Repeater?
    ensures RepeaterDelays(StaircaseWrites(x, y, z, delay, block)) == StaircaseDelays(delay)
  {
    var head := StaircaseHead(x, y, z, block);
    var steps := StaircaseSteps(x, y, z, delay / 8, block);
    var tail := StaircaseTail(x, y, z, delay, block);
    assert RepeaterDelays(head) == [] by {
      assert head == [head[0], head[1]] + [head[2]];
      RepeaterDelaysAppend([head[0], head[1]], [head[2]]);
      RepeaterDelaysPair(head[0], head[1]);
      RepeaterDelaysPair(head[2], head[2]);
    }
    calc {
      RepeaterDelays(StaircaseWrites(x, y, z, delay, block));
      RepeaterDelays(head + steps + tail);
      { RepeaterDelaysAppend(head + steps, tail); }
      RepeaterDelays(head + steps) + RepeaterDelays(tail);
      { RepeaterDelaysAppend(head, steps); }
      RepeaterDelays(head) + RepeaterDelays(steps) + RepeaterDelays(tail);
      { StepsDelays(x, y, z, delay / 8, block); TailDelays(x, y, z, delay, block); }
      [] + FullStepDelays(delay / 8) + LastStepDelays(LastStepDelay(delay));
      { assert [] + FullStepDelays(delay / 8) == FullStepDelays(delay / 8); }
      StaircaseDelays(delay);
    }
  }

  lemma {:induction false} FullStepDelaysSum(n: nat)
    ensures Sum(FullStepDelays(n)) == 8 * n
    ensures forall k | 0 <= k < |FullStepDelays(n)| :: FullStepDelays(n)[k] == 4
  {
    if n > 0 {
      FullStepDelaysSum(n - 1);
      SumAppend(FullStepDelays(n - 1), [4, 4]);
      assert [4, 4][..1] == [4] && [4][..0] == [];
    }
  }

  /** The staircase's timing: every repeater stage is a valid 1 to 4, and
      the stages add up to 8 * (delay / 8) + r, which is the delay itself
      unless delay is a multiple of 8, when it is delay + 8. */
  lemma StaircaseTiming(delay: nat)
    ensures forall k | 0 <= k < |StaircaseDelays(delay)| :: 1 <= StaircaseDelays(delay)[k] <= 4
    ensures Sum(StaircaseDelays(delay)) == 8 * (delay / 8) + LastStepDelay(delay)
    ensures Sum(StaircaseDelays(delay)) == if delay % 8 == 0 then delay + 8 else delay
  {
    var r := LastStepDelay(delay);
    FullStepDelaysSum(delay / 8);
    SumAppend(FullStepDelays(delay / 8), LastStepDelays(r));
    assert [4, r - 4][..1] == [4] && [4][..0] == [] && [r][..0] == [];
  }

  lemma LastWritePair(v: Write, w: Write, x: int, y: int, z: int)
    ensures LastWrite([v], x, y, z) == if v.x == x && v.y == y && v.z == z then Some(v.block) else None
    ensures LastWrite([v, w], x, y, z) ==
      if w.x == x && w.y == y && w.z == z then Some(w.block)
      else if v.x == x && v.y == y && v.z == z then Some(v.block)
      else None
  {
    assert [v][..0] == [];
    assert [v, w][..1] == [v];
  }

  /** The last write to cell (cx, cy, z) in a + b + c + e, when neither
      b nor e addresses it. */
  lemma LastWriteSkipping(a: seq<Write>, b: seq<Write>, c: seq<Write>, e: seq<Write>, cx: int, cy: int, z: int)
    requires LastWrite(b, cx, cy, z).None? && LastWrite(e, cx, cy, z).None?
    ensures LastWrite(a + b + c + e, cx, cy, z) ==
      if LastWrite(c, cx, cy, z).Some? then LastWrite(c, cx, cy, z) else LastWrite(a, cx, cy, z)
  {
    LastWriteAppend(a + b + c, e, cx, cy, z);
    LastWriteAppend(a + b, c, cx, cy, z);
    LastWriteAppend(a, b, cx, cy, z);
  }

  /** The last step: its bottom cell ends as a slab exactly when
      delay <= 4 (the dark oak plank otherwise), and its top cell holds an
      east repeater of r - 4 ticks exactly when r > 4 (dust otherwise). */
  lemma StaircaseLastStep(x: int, y: int, z: int, delay: nat, block: Block)
    ensures LastWrite(StaircaseWrites(x, y, z, delay, block), x + delay / 8 + 1, y, z) ==
      Some(if delay <= 4 then WiringSlab else WiringBlock)
    ensures LastWrite(StaircaseWrites(x, y, z, delay, block), x + delay / 8 + 1, y + 3, z) ==
      Some(if LastStepDelay(delay) > 4 then RepeaterBlock(East, LastStepDelay(delay) - 4) else DustBlock)
  {
    var d := delay / 8 + 1;
    var r := LastStepDelay(delay);
    var pre := StaircaseHead(x, y, z, block) + StaircaseSteps(x, y, z, delay / 8, block);
    var a := TailBase(x, y, z, d, delay);
    var b := TailMiddle(x, y, z, d, r, block);
    var c := TailTop(x, y, z, d, r, block);
    var e := TailTurn(x, y, z, d, block);
    LastWritePair(a[0], a[|a| - 1], x + d, y, z);
    LastWritePair(a[0], a[|a| - 1], x + d, y + 3, z);
    LastWritePair(b[0], b[1], x + d, y, z);
    LastWritePair(b[0], b[1], x + d, y + 3, z);
    LastWritePair(c[0], c[|c| - 1], x + d, y, z);
    LastWritePair(c[0], c[|c| - 1], x + d, y + 3, z);
    LastWritePair(e[0], e[1], x + d, y, z);
    LastWritePair(e[0], e[1], x + d, y + 3, z);
    assert LastWrite(a, x + d, y, z) == Some(if delay <= 4 then WiringSlab else WiringBlock);
    assert LastWrite(c, x + d, y + 3, z) == Some(if r > 4 then RepeaterBlock(East, r - 4) else DustBlock);
    LastWriteSkipping(a, b, c, e, x + d, y, z);
    LastWriteSkipping(a, b, c, e, x + d, y + 3, z);
    StaircaseLog([], x, y, z, delay, block);
    assert StaircaseWrites(x, y, z, delay, block) == pre + (a + b + c + e);
    LastWriteAppend(pre, a + b + c + e, x + d, y, z);
    LastWriteAppend(pre, a + b + c + e, x + d, y + 3, z);
  }
}
