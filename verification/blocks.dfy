/** The fixed encoding tables of the generator: block ids, block states,
    the torch, repeater and piston tables keyed by direction, the instrument
    blocks, and the table from pitch tokens to (instrument, pitch). */
module Blocks {
  import opened Wrappers

  /** The block kinds the generator writes, with the numeric ids of the
      schematic format. */
  datatype BlockId =
    | Air | Planks | NoteBlock | StickyPiston | GoldBlock | RedstoneDust | Lever
    | RedstoneTorch | Glowstone | RedstoneRepeater | WoodenSlab | RedstoneBlock
    | PackedIce

  function BlockIdCode(id: BlockId): int
  {
    match id
    case Air => 0
    case Planks => 5
    case NoteBlock => 25
    case StickyPiston => 29
    case GoldBlock => 41
    case RedstoneDust => 55
    case Lever => 69
    case RedstoneTorch => 76
    case Glowstone => 89
    case RedstoneRepeater => 93
    case WoodenSlab => 126
    case RedstoneBlock => 152
    case PackedIce => 174
  }

  /** Reads a block id back from its numeric code. */
  function BlockIdOf(code: int): (r: Option<BlockId>)
    ensures r.Some? ==> BlockIdCode(r.value) == code
  {
    if code == 0 then Some(Air)
    else if code == 5 then Some(Planks)
    else if code == 25 then Some(NoteBlock)
    else if code == 29 then Some(StickyPiston)
    else if code == 41 then Some(GoldBlock)
    else if code == 55 then Some(RedstoneDust)
    else if code == 69 then Some(Lever)
    else if code == 76 then Some(RedstoneTorch)
    else if code == 89 then Some(Glowstone)
    else if code == 93 then Some(RedstoneRepeater)
    else if code == 126 then Some(WoodenSlab)
    else if code == 152 then Some(RedstoneBlock)
    else if code == 174 then Some(PackedIce)
    else None
  }

  /** Every block id is recovered from its code, so no two ids share one. */
  lemma BlockIdRoundTrip(id: BlockId)
    ensures BlockIdOf(BlockIdCode(id)) == Some(id)
  {
  }

  lemma BlockIdCodeInjective(a: BlockId, b: BlockId)
    ensures BlockIdCode(a) == BlockIdCode(b) ==> a == b
  {
    BlockIdRoundTrip(a);
    BlockIdRoundTrip(b);
  }

  datatype Direction = North | East | South | West | Up | Down

  datatype WoodState = Birch | DarkOak | UpsideDownDarkOak

  datatype TorchState = TorchUp | TorchEast | TorchWest | TorchSouth | TorchNorth

  /** The sixteen repeater states, one per (facing, delay stage). */
  datatype RepeaterState =
    | North1 | North2 | North3 | North4
    | East1 | East2 | East3 | East4
    | South1 | South2 | South3 | South4
    | West1 | West2 | West3 | West4

  datatype PistonState = PistonDown | PistonUp | PistonNorth | PistonSouth | PistonWest | PistonEast

  /** The optional state that goes with a block id; `Plain` is the absent
      state, which the grid stores as 0. */
  datatype BlockState =
    | Plain
    | Wood(wood: WoodState)
    | Torch(torch: TorchState)
    | Repeater(repeater: RepeaterState)
    | Piston(piston: PistonState)

  datatype Block = Block(id: BlockId, state: BlockState)

  /** A repeater's delay stage: 1 to 4 redstone ticks. */
  type Stage = s: int | 1 <= s <= 4 witness 1

  function WoodCode(w: WoodState): int
  {
    match w
    case Birch => 2
    case DarkOak => 5
    case UpsideDownDarkOak => 13
  }

  function TorchCode(t: TorchState): int
  {
    match t
    case TorchUp => 0
    case TorchEast => 1
    case TorchWest => 2
    case TorchSouth => 3
    case TorchNorth => 4
  }

  function RepeaterCode(r: RepeaterState): int
  {
    match r
    case North1 => 0
    case North2 => 4
    case North3 => 8
    case North4 => 12
    case East1 => 1
    case East2 => 5
    case East3 => 9
    case East4 => 13
    case South1 => 2
    case South2 => 6
    case South3 => 10
    case South4 => 14
    case West1 => 3
    case West2 => 7
    case West3 => 11
    case West4 => 15
  }

  function PistonCode(p: PistonState): int
  {
    match p
    case PistonDown => 0
    case PistonUp => 1
    case PistonNorth => 2
    case PistonSouth => 3
    case PistonWest => 4
    case PistonEast => 5
  }

  /** The data byte stored beside a block id: the state's value, 0 when the
      block has no state. */
  function StateCode(s: BlockState): int
  {
    match s
    case Plain => 0
    case Wood(w) => WoodCode(w)
    case Torch(t) => TorchCode(t)
    case Repeater(r) => RepeaterCode(r)
    case Piston(p) => PistonCode(p)
  }

  /** The horizontal directions, numbered as the repeater data byte counts
      them. */
  predicate Horizontal(d: Direction)
  {
    d == North || d == East || d == South || d == West
  }

  function FacingCode(d: Direction): int
  {
    match d
    case North => 0
    case East => 1
    case South => 2
    case West => 3
    case Up => 4
    case Down => 5
  }

  /** The redstone repeater table: a repeater facing `d` with delay `stage`,
      for the four horizontal directions and the stages 1 to 4; any other key
      is missing from the table. */
  function RepeaterLookup(d: Direction, stage: int): Option<Block>
  {
    var row: Option<(RepeaterState, RepeaterState, RepeaterState, RepeaterState)> :=
      match d
      case North => Some((North1, North2, North3, North4))
      case East => Some((East1, East2, East3, East4))
      case South => Some((South1, South2, South3, South4))
      case West => Some((West1, West2, West3, West4))
      case _ => None;
    if row.None? || stage < 1 || stage > 4 then None
    else
      var (s1, s2, s3, s4) := row.value;
      Some(Block(RedstoneRepeater, Repeater(
        if stage == 1 then s1 else if stage == 2 then s2 else if stage == 3 then s3 else s4)))
  }

  /** The repeater table holds exactly the horizontal directions with stages
      1 to 4, and each entry's data byte is facing + 4 * (stage - 1). */
  lemma RepeaterTableEncoding(d: Direction, stage: int)
    ensures RepeaterLookup(d, stage).Some? <==> Horizontal(d) && 1 <= stage <= 4
    ensures RepeaterLookup(d, stage).Some? ==>
      RepeaterLookup(d, stage).value.id == RedstoneRepeater &&
      StateCode(RepeaterLookup(d, stage).value.state) == FacingCode(d) + 4 * (stage - 1)
  {
  }

  /** The repeater for a key that the table holds: a redstone repeater
      whose data byte is facing + 4 * (stage - 1). */
  function RepeaterBlock(d: Direction, stage: Stage): (b: Block)
    requires Horizontal(d)
    ensures b.id == RedstoneRepeater && b.state.Repeater?
    ensures StateCode(b.state) == FacingCode(d) + 4 * (stage - 1)
    ensures RepeaterLookup(d, stage) == Some(b)
  {
    RepeaterLookup(d, stage).value
  }

  /** The redstone torch table, which has no entry for `Down`. */
  function TorchLookup(d: Direction): Option<Block>
  {
    match d
    case North => Some(Block(RedstoneTorch, Torch(TorchNorth)))
    case East => Some(Block(RedstoneTorch, Torch(TorchEast)))
    case South => Some(Block(RedstoneTorch, Torch(TorchSouth)))
    case West => Some(Block(RedstoneTorch, Torch(TorchWest)))
    case Up => Some(Block(RedstoneTorch, Torch(TorchUp)))
    case Down => None
  }

  /** The torch for a direction the table holds: a redstone torch whose
      data byte is 0 standing up, and 1 to 4 attached facing east, west,
      south and north. */
  function TorchBlock(d: Direction): (b: Block)
    requires d != Down
    ensures b.id == RedstoneTorch && b.state.Torch?
    ensures StateCode(b.state) ==
      if d == Up then 0 else if d == East then 1 else if d == West then 2 else if d == South then 3 else 4
    ensures TorchLookup(d) == Some(b)
  {
    TorchLookup(d).value
  }

  /** The sticky piston table, one entry per direction. */
  function StickyPistonBlock(d: Direction): Block
  {
    match d
    case North => Block(StickyPiston, Piston(PistonNorth))
    case East => Block(StickyPiston, Piston(PistonEast))
    case South => Block(StickyPiston, Piston(PistonSouth))
    case West => Block(StickyPiston, Piston(PistonWest))
    case Up => Block(StickyPiston, Piston(PistonUp))
    case Down => Block(StickyPiston, Piston(PistonDown))
  }

  /** The line, wiring and slab blocks the layout is built from. */
  const LineBlock := Block(Planks, Wood(Birch))
  const WiringBlock := Block(Planks, Wood(DarkOak))
  const WiringSlab := Block(WoodenSlab, Wood(UpsideDownDarkOak))
  const NoteBlockBlock := Block(NoteBlock, Plain)
  const DustBlock := Block(RedstoneDust, Plain)
  const AirBlock := Block(Air, Plain)

  /** The range of a redstone signal, in blocks. */
  const RedstoneMax := 15

  datatype Instrument = Bell | Chime | Harp | Pling | Bass

  /** The block placed under a note block to select its instrument; the harp
      needs no block, so it is air. */
  function InstrumentBlock(i: Instrument): Block
  {
    match i
    case Bell => Block(GoldBlock, Plain)
    case Chime => Block(PackedIce, Plain)
    case Harp => Block(Air, Plain)
    case Pling => Block(Glowstone, Plain)
    case Bass => Block(Planks, Wood(DarkOak))
  }

  /** Only the harp leaves the cell under its note block empty. */
  lemma InstrumentBlockIsAir(i: Instrument)
    ensures InstrumentBlock(i).id == Air <==> i == Harp
  {
  }

  datatype Note = Note(instrument: Instrument, pitch: int)

  /** The entries of the pitch table without a sharp, keyed by letter and
      octave digit. */
  function NaturalNote(letter: char, octave: char): Option<Note>
  {
    if letter == 'F' && octave == '7' then Some(Note(Bell, 23))  // F7
    else if letter == 'E' && octave == '7' then Some(Note(Bell, 22))  // E7
    else if letter == 'D' && octave == '7' then Some(Note(Bell, 20))  // D7
    else if letter == 'C' && octave == '7' then Some(Note(Bell, 18))  // C7
    else if letter == 'B' && octave == '7' then Some(Note(Bell, 17))  // B7
    else if letter == 'A' && octave == '7' then Some(Note(Bell, 15))  // A7
    else if letter == 'G' && octave == '6' then Some(Note(Bell, 13))  // G6
    else if letter == 'F' && octave == '6' then Some(Note(Bell, 11))  // F6
    else if letter == 'E' && octave == '6' then Some(Note(Bell, 10))  // E6
    else if letter == 'D' && octave == '6' then Some(Note(Bell, 8))  // D6
    else if letter == 'C' && octave == '6' then Some(Note(Bell, 6))  // C6
    else if letter == 'B' && octave == '6' then Some(Note(Bell, 5))  // B6
    else if letter == 'A' && octave == '6' then Some(Note(Bell, 3))  // A6
    else if letter == 'G' && octave == '5' then Some(Note(Bell, 1))  // G5
    else if letter == 'F' && octave == '5' then Some(Note(Harp, 23))  // F5
    else if letter == 'E' && octave == '5' then Some(Note(Harp, 22))  // E5
    else if letter == 'D' && octave == '5' then Some(Note(Harp, 20))  // D5
    else if letter == 'C' && octave == '5' then Some(Note(Harp, 18))  // C5
    else if letter == 'B' && octave == '5' then Some(Note(Harp, 17))  // B5
    else if letter == 'A' && octave == '5' then Some(Note(Harp, 15))  // A5
    else if letter == 'G' && octave == '4' then Some(Note(Harp, 13))  // G4
    else if letter == 'F' && octave == '4' then Some(Note(Harp, 11))  // F4
    else if letter == 'E' && octave == '4' then Some(Note(Harp, 10))  // E4
    else if letter == 'D' && octave == '4' then Some(Note(Harp, 8))  // D4
    else if letter == 'C' && octave == '4' then Some(Note(Harp, 6))  // C4
    else if letter == 'B' && octave == '4' then Some(Note(Harp, 5))  // B4
    else if letter == 'A' && octave == '4' then Some(Note(Harp, 3))  // A4
    else if letter == 'G' && octave == '3' then Some(Note(Harp, 1))  // G3
    else if letter == 'F' && octave == '3' then Some(Note(Bass, 23))  // F3
    else if letter == 'E' && octave == '3' then Some(Note(Bass, 22))  // E3
    else if letter == 'D' && octave == '3' then Some(Note(Bass, 20))  // D3
    else if letter == 'C' && octave == '3' then Some(Note(Bass, 18))  // C3
    else if letter == 'B' && octave == '3' then Some(Note(Bass, 17))  // B3
    else if letter == 'A' && octave == '3' then Some(Note(Bass, 15))  // A3
    else if letter == 'G' && octave == '2' then Some(Note(Bass, 13))  // G2
    else if letter == 'F' && octave == '2' then Some(Note(Bass, 11))  // F2
    else if letter == 'E' && octave == '2' then Some(Note(Bass, 10))  // E2
    else if letter == 'D' && octave == '2' then Some(Note(Bass, 8))  // D2
    else if letter == 'C' && octave == '2' then Some(Note(Bass, 6))  // C2
    else if letter == 'B' && octave == '2' then Some(Note(Bass, 5))  // B2
    else if letter == 'A' && octave == '2' then Some(Note(Bass, 3))  // A2
    else if letter == 'G' && octave == '1' then Some(Note(Bass, 1))  // G1
    else None
  }

  /** The entries of the pitch table with a sharp, keyed by letter and
      octave digit. */
  function SharpNote(letter: char, octave: char): Option<Note>
  {
    if letter == 'F' && octave == '7' then Some(Note(Bell, 24))  // F#7
    else if letter == 'D' && octave == '7' then Some(Note(Bell, 21))  // D#7
    else if letter == 'C' && octave == '7' then Some(Note(Bell, 19))  // C#7
    else if letter == 'A' && octave == '7' then Some(Note(Bell, 16))  // A#7
    else if letter == 'G' && octave == '6' then Some(Note(Bell, 14))  // G#6
    else if letter == 'F' && octave == '6' then Some(Note(Bell, 12))  // F#6
    else if letter == 'D' && octave == '6' then Some(Note(Bell, 9))  // D#6
    else if letter == 'C' && octave == '6' then Some(Note(Bell, 7))  // C#6
    else if letter == 'A' && octave == '6' then Some(Note(Bell, 4))  // A#6
    else if letter == 'G' && octave == '5' then Some(Note(Bell, 2))  // G#5
    else if letter == 'F' && octave == '5' then Some(Note(Harp, 24))  // F#5
    else if letter == 'D' && octave == '5' then Some(Note(Harp, 21))  // D#5
    else if letter == 'C' && octave == '5' then Some(Note(Harp, 19))  // C#5
    else if letter == 'A' && octave == '5' then Some(Note(Harp, 16))  // A#5
    else if letter == 'G' && octave == '4' then Some(Note(Harp, 14))  // G#4
    else if letter == 'F' && octave == '4' then Some(Note(Harp, 12))  // F#4
    else if letter == 'D' && octave == '4' then Some(Note(Harp, 9))  // D#4
    else if letter == 'C' && octave == '4' then Some(Note(Harp, 7))  // C#4
    else if letter == 'A' && octave == '4' then Some(Note(Harp, 4))  // A#4
    else if letter == 'G' && octave == '3' then Some(Note(Harp, 2))  // G#3
    else if letter == 'F' && octave == '3' then Some(Note(Harp, 0))  // F#3
    else if letter == 'D' && octave == '3' then Some(Note(Bass, 21))  // D#3
    else if letter == 'C' && octave == '3' then Some(Note(Bass, 19))  // C#3
    else if letter == 'A' && octave == '3' then Some(Note(Bass, 16))  // A#3
    else if letter == 'G' && octave == '2' then Some(Note(Bass, 14))  // G#2
    else if letter == 'F' && octave == '2' then Some(Note(Bass, 12))  // F#2
    else if letter == 'D' && octave == '2' then Some(Note(Bass, 9))  // D#2
    else if letter == 'C' && octave == '2' then Some(Note(Bass, 7))  // C#2
    else if letter == 'A' && octave == '2' then Some(Note(Bass, 4))  // A#2
    else if letter == 'G' && octave == '1' then Some(Note(Bass, 2))  // G#1
    else if letter == 'F' && octave == '1' then Some(Note(Bass, 0))  // F#1
    else None
  }

  /** `note_parser[token]`: the pitch table from a token to its instrument
      and note block pitch, None where the table raises KeyError. The 73
      tokens are a letter, an optional '#' and an octave digit, so the table
      is split on the token's shape. */
  function LookupNote(token: string): (r: Option<Note>)
    ensures r.Some? ==> 0 <= r.value.pitch <= 24
    ensures r.Some? ==> r.value.instrument in {Bell, Harp, Bass}
  {
    if |token| == 2 then NaturalNote(token[0], token[1])
    else if |token| == 3 && token[1] == '#' then SharpNote(token[0], token[2])
    else None
  }

  /** The position of a natural note within an octave, counted from A, as
      the token names count octaves (A4 follows G#3). */
  function LetterOffset(c: char): Option<int>
  {
    if c == 'A' then Some(0)
    else if c == 'B' then Some(2)
    else if c == 'C' then Some(3)
    else if c == 'D' then Some(5)
    else if c == 'E' then Some(7)
    else if c == 'F' then Some(8)
    else if c == 'G' then Some(10)
    else None
  }

  /** The semitone a token names, counted from A0: a letter, an optional
      sharp (not after B or E), and an octave digit. */
  function Semitone(token: string): Option<int>
  {
    if |token| == 2 && LetterOffset(token[0]).Some? && '0' <= token[1] <= '9' then
      Some(12 * (token[1] as int - '0' as int) + LetterOffset(token[0]).value)
    else if |token| == 3 && LetterOffset(token[0]).Some? && token[0] != 'B' && token[0] != 'E'
      && token[1] == '#' && '0' <= token[2] <= '9' then
      Some(12 * (token[2] as int - '0' as int) + LetterOffset(token[0]).value + 1)
    else None
  }

  /** The semitones each instrument covers and the semitone of its pitch 0:
      bass F#1 to F3, harp F#3 to F#5, bell G5 to F#7 (each instrument's
      two-octave range, with the overlap given to the harp). */
  function NoteOfSemitone(s: int): Option<Note>
  {
    if 21 <= s <= 44 then Some(Note(Bass, s - 21))
    else if 45 <= s <= 69 then Some(Note(Harp, s - 45))
    else if 70 <= s <= 93 then Some(Note(Bell, s - 69))
    else None
  }

  /** The pitch table is exactly the semitone ladder: a token is in the table
      when its semitone lies between F#1 and F#7, and its entry is the
      instrument covering that semitone with the pitch counted from that
      instrument's F#. */
  lemma LookupNoteIsSemitoneLadder(token: string)
    ensures LookupNote(token) ==
      (if Semitone(token).Some? then NoteOfSemitone(Semitone(token).value) else None)
  {
  }
}
