/** The memory fill: one block, one segment, and the sequential pass, slice and lane loops. */
module Fill {
  import opened Machine
  import opened Params
  import opened Indexing

  // ---------------------------------------------------------------------------
  // Blocks and instances
  // ---------------------------------------------------------------------------

  /** A memory block: 128 words. */
  type Block = s: seq<u64> | |s| == 128 witness seq(128, i => 0)

  const ZERO_BLOCK: Block := seq(128, i => 0)

  function XorWord(a: u64, b: u64): u64 { ((a as bv64) ^ (b as bv64)) as u64 }

  /** `xor_block`. */
  function XorBlock(a: Block, b: Block): Block {
    seq(128, i requires 0 <= i < 128 => XorWord(a[i], b[i]))
  }

  /**
   A live computation. `compress` is the compression function of two blocks; the fill does not
   depend on what it computes.
   */
  datatype Instance = Instance(
    algorithm: Algorithm,
    version: Version,
    passes: u32,
    lanes: u32,
    threads: u32,
    layout: Layout,
    compress: (Block, Block) -> Block)

  /** What `Instance::new` derives from validated costs. */
  function NewInstance(algorithm: Algorithm, version: Version, p: Costs,
      compress: (Block, Block) -> Block): (inst: Instance)
    requires Valid(p)
    ensures WellFormed(inst)
  {
    LayoutFacts(p);
    Instance(algorithm, version, p.passes, p.lanes, EffectiveThreads(p), MemoryLayout(p), compress)
  }

  predicate WellFormed(inst: Instance) {
    && Sound(inst.layout)
    && 1 <= inst.lanes <= MAX_LANES
    && 1 <= inst.threads <= inst.lanes
    && 1 <= inst.passes
    && inst.layout.blocks == Times(inst.lanes, inst.layout.laneLength)
  }

  predicate Sized(inst: Instance, m: seq<Block>) { |m| == inst.layout.blocks }

  /** `data_independent_addressing`. */
  predicate DataIndependent(inst: Instance, pass: u32, slice: u32) {
    inst.algorithm.Argon2i? || (inst.algorithm.Argon2id? && pass == 0 && slice < SYNC_POINTS / 2)
  }

  /** `with_xor`: version 0x10 always overwrites. */
  predicate WithXor(inst: Instance, pass: u32) { !inst.version.V0x10? && pass != 0 }

  /** `fill_block`: the result overwrites the old block or is added to it. */
  function FillBlock(inst: Instance, prev: Block, reference: Block, old_: Block, withXor: bool): Block {
    if withXor then XorBlock(inst.compress(prev, reference), old_) else inst.compress(prev, reference)
  }

  // ---------------------------------------------------------------------------
  // Addresses
  // ---------------------------------------------------------------------------

  /** The offset of a column of a lane. */
  function At(inst: Instance, lane: nat, column: nat): nat { Times(lane, inst.layout.laneLength) + column }

  /** The lane an offset lies in: its quotient by the lane length. */
  function LaneOf(n: nat, a: nat): nat
    requires n > 0
  {
    if a < n then 0 else 1 + LaneOf(n, a - n)
  }

  /** Its column: the remainder. */
  function ColumnOf(n: nat, a: nat): nat
    requires n > 0
  {
    if a < n then a else ColumnOf(n, a - n)
  }

  lemma {:induction false} CoordinatesOf(n: nat, lane: nat, column: nat)
    requires column < n
    ensures LaneOf(n, Times(lane, n) + column) == lane
    ensures ColumnOf(n, Times(lane, n) + column) == column
  {
    if lane > 0 {
      CoordinatesOf(n, lane - 1, column);
    }
  }

  lemma {:induction false} OffsetOf(n: nat, a: nat)
    requires n > 0
    ensures ColumnOf(n, a) < n
    ensures Times(LaneOf(n, a), n) + ColumnOf(n, a) == a
  {
    if a >= n {
      OffsetOf(n, a - n);
    }
  }

  lemma ColumnIsRemainder(n: nat, a: nat)
    requires n > 0
    ensures LaneOf(n, a) == a / n && ColumnOf(n, a) == a % n
  {
    OffsetOf(n, a);
    TimesIsProduct(LaneOf(n, a), n);
    QuotientUnique(a, n, LaneOf(n, a), ColumnOf(n, a));
  }

  /** Offsets are in bounds and determine the lane and the column. */
  lemma AtFacts(inst: Instance, lane: nat, column: nat)
    requires WellFormed(inst) && lane < inst.lanes && column < inst.layout.laneLength
    ensures At(inst, lane, column) < inst.layout.blocks
    ensures LaneOf(inst.layout.laneLength, At(inst, lane, column)) == lane
    ensures ColumnOf(inst.layout.laneLength, At(inst, lane, column)) == column
  {
    TimesMono(lane, inst.lanes, inst.layout.laneLength);
    CoordinatesOf(inst.layout.laneLength, lane, column);
  }

  lemma CoordinatesFacts(inst: Instance, a: nat)
    requires WellFormed(inst) && a < inst.layout.blocks
    ensures var n := inst.layout.laneLength;
            && LaneOf(n, a) < inst.lanes
            && ColumnOf(n, a) < n
            && At(inst, LaneOf(n, a), ColumnOf(n, a)) == a
  {
    var n := inst.layout.laneLength;
    OffsetOf(n, a);
    if inst.lanes <= LaneOf(n, a) {
      TimesMonoWeak(inst.lanes, LaneOf(n, a), n);
    }
  }

  /** A position is in range for an instance. */
  predicate InRange(inst: Instance, pos: Position) {
    && pos.pass < inst.passes
    && pos.lane < inst.lanes
    && Visited(inst.layout, pos)
  }

  lemma ColumnFacts(y: Layout, pos: Position)
    requires Sound(y) && Visited(y, pos)
    ensures Column(y, pos) < y.laneLength
    ensures 0 <= PreviousColumn(y, pos) < y.laneLength
    ensures SliceBase(y, pos.slice) <= Column(y, pos) < SliceBase(y, pos.slice + 1)
  {
  }

  // ---------------------------------------------------------------------------
  // One block
  // ---------------------------------------------------------------------------

  function InputWord(inst: Instance, pos: Position, counter: u64, i: nat): u64 {
    if i == 0 then pos.pass
    else if i == 1 then pos.lane
    else if i == 2 then pos.slice
    else if i == 3 then inst.layout.blocks
    else if i == 4 then inst.passes
    else if i == 5 then AlgorithmCode(inst.algorithm)
    else if i == 6 then counter
    else 0
  }

  /** The seed block `fill_segment` builds, with its counter in word 6. */
  function AddressInput(inst: Instance, pos: Position, counter: u64): Block {
    seq(128, i requires 0 <= i < 128 => InputWord(inst, pos, counter, i))
  }

  /** The `counter`-th block of addresses: the seed compressed twice with the zero block. */
  function AddressBlock(inst: Instance, pos: Position, counter: u64): Block {
    inst.compress(ZERO_BLOCK, inst.compress(ZERO_BLOCK, AddressInput(inst, pos, counter)))
  }

  /** The offset of the block before the one at `pos`, round the lane. */
  function PrevOffset(inst: Instance, pos: Position): nat
    requires WellFormed(inst) && InRange(inst, pos)
  {
    ColumnFacts(inst.layout, pos);
    At(inst, pos.lane, PreviousColumn(inst.layout, pos))
  }

  function CurrOffset(inst: Instance, pos: Position): nat { At(inst, pos.lane, Column(inst.layout, pos)) }

  /** The pseudo-random value: an address word, or the first word of the previous block. */
  function PseudoRand(inst: Instance, m: seq<Block>, pos: Position): u64
    requires WellFormed(inst) && InRange(inst, pos) && Sized(inst, m)
  {
    if DataIndependent(inst, pos.pass, pos.slice) then
      AddressBlock(inst, pos, pos.index / 128 + 1)[pos.index % 128]
    else
      ColumnFacts(inst.layout, pos);
      AtFacts(inst, pos.lane, PreviousColumn(inst.layout, pos));
      m[PrevOffset(inst, pos)][0]
  }

  /** The lane a pseudo-random value refers to. */
  function RefLane(inst: Instance, pos: Position, rand: u64): (lane: u32)
    requires WellFormed(inst) && InRange(inst, pos)
    ensures lane < inst.lanes
    ensures lane != pos.lane ==> MayCross(pos)
  {
    if pos.pass == 0 && pos.slice == 0 then pos.lane else rand / 0x1_0000_0000 % inst.lanes
  }

  /** The column of the reference block. */
  function RefColumn(inst: Instance, pos: Position, rand: u64): nat
    requires WellFormed(inst) && InRange(inst, pos)
  {
    IndexAlpha(inst.layout, pos, rand % 0x1_0000_0000, RefLane(inst, pos, rand) == pos.lane)
  }

  /** The offset of the reference block. */
  function RefOffset(inst: Instance, pos: Position, rand: u64): nat
    requires WellFormed(inst) && InRange(inst, pos)
  {
    At(inst, RefLane(inst, pos, rand), RefColumn(inst, pos, rand))
  }

  /** The block written at `pos`. */
  function NewBlock(inst: Instance, m: seq<Block>, pos: Position): Block
    requires WellFormed(inst) && InRange(inst, pos) && Sized(inst, m)
  {
    AccessFacts(inst, pos, PseudoRand(inst, m, pos));
    FillBlock(inst, m[PrevOffset(inst, pos)], m[RefOffset(inst, pos, PseudoRand(inst, m, pos))],
              m[CurrOffset(inst, pos)], WithXor(inst, pos.pass))
  }

  /** Filling the block at `pos`. */
  function WriteBlock(inst: Instance, m: seq<Block>, pos: Position): (m': seq<Block>)
    requires WellFormed(inst) && InRange(inst, pos) && Sized(inst, m)
    ensures Sized(inst, m')
  {
    AccessFacts(inst, pos, PseudoRand(inst, m, pos));
    m[CurrOffset(inst, pos) := NewBlock(inst, m, pos)]
  }

  /** Every access is in bounds, and no block read is the block written. */
  lemma AccessFacts(inst: Instance, pos: Position, rand: u64)
    requires WellFormed(inst) && InRange(inst, pos)
    ensures CurrOffset(inst, pos) < inst.layout.blocks
    ensures PrevOffset(inst, pos) < inst.layout.blocks
    ensures RefOffset(inst, pos, rand) < inst.layout.blocks
    ensures CurrOffset(inst, pos) != PrevOffset(inst, pos)
    ensures CurrOffset(inst, pos) != RefOffset(inst, pos, rand)
    ensures LaneOf(inst.layout.laneLength, CurrOffset(inst, pos)) == pos.lane
    ensures ColumnOf(inst.layout.laneLength, CurrOffset(inst, pos)) == Column(inst.layout, pos)
    ensures LaneOf(inst.layout.laneLength, PrevOffset(inst, pos)) == pos.lane
    ensures ColumnOf(inst.layout.laneLength, PrevOffset(inst, pos)) == PreviousColumn(inst.layout, pos)
    ensures LaneOf(inst.layout.laneLength, RefOffset(inst, pos, rand)) == RefLane(inst, pos, rand)
    ensures ColumnOf(inst.layout.laneLength, RefOffset(inst, pos, rand)) == RefColumn(inst, pos, rand)
  {
    var y := inst.layout;
    hide IndexAlpha;
    ColumnFacts(y, pos);
    AtFacts(inst, pos.lane, Column(y, pos));
    AtFacts(inst, pos.lane, PreviousColumn(y, pos));
    var lane := RefLane(inst, pos, rand);
    IndexAlphaIsSafe(y, pos, rand % 0x1_0000_0000, lane == pos.lane);
    AtFacts(inst, lane, RefColumn(inst, pos, rand));
  }

  // ---------------------------------------------------------------------------
  // The sequential schedule
  // ---------------------------------------------------------------------------

  /** The position of block `i` of `lane` in the `t`-th slice of the whole fill. */
  function PositionAt(inst: Instance, t: nat, lane: nat, i: nat): Position
    requires t < 4 * inst.passes && lane < inst.lanes && i < inst.layout.segmentLength
  {
    Position(t / 4, lane, t % 4, i)
  }

  /** The first block of a segment that the fill writes. */
  function StartIndex(t: nat): nat { if t == 0 then 2 else 0 }

  /** `fill_segment` up to block `k`. */
  function SegmentFill(inst: Instance, m: seq<Block>, t: nat, lane: nat, k: nat): (m': seq<Block>)
    requires WellFormed(inst) && Sized(inst, m)
    requires t < 4 * inst.passes && lane < inst.lanes && k <= inst.layout.segmentLength
    ensures Sized(inst, m')
  {
    if k <= StartIndex(t) then m
    else WriteBlock(inst, SegmentFill(inst, m, t, lane, k - 1), PositionAt(inst, t, lane, k - 1))
  }

  /** `fill_slice_st` over the first `n` lanes. */
  function SliceFill(inst: Instance, m: seq<Block>, t: nat, n: nat): (m': seq<Block>)
    requires WellFormed(inst) && Sized(inst, m)
    requires t < 4 * inst.passes && n <= inst.lanes
    ensures Sized(inst, m')
  {
    if n == 0 then m
    else SegmentFill(inst, SliceFill(inst, m, t, n - 1), t, n - 1, inst.layout.segmentLength)
  }

  /** The memory after the first `n` slices of the fill. */
  function SequentialFill(inst: Instance, m: seq<Block>, n: nat): (m': seq<Block>)
    requires WellFormed(inst) && Sized(inst, m) && n <= 4 * inst.passes
    ensures Sized(inst, m')
  {
    if n == 0 then m
    else SliceFill(inst, SequentialFill(inst, m, n - 1), n - 1, inst.lanes)
  }

  /** What the trace callback sees over the first `n` passes. */
  function SequentialTraces(inst: Instance, m: seq<Block>, n: nat): (r: seq<seq<Block>>)
    requires WellFormed(inst) && Sized(inst, m) && n <= inst.passes
    ensures |r| == n
  {
    if n == 0 then []
    else SequentialTraces(inst, m, n - 1) + [SequentialFill(inst, m, 4 * n)]
  }

  // ---------------------------------------------------------------------------
  // The same, as the source runs it
  // ---------------------------------------------------------------------------

  function Bump(x: u64): u64 { (x + 1) % 0x1_0000_0000_0000_0000 }

  /** `next_addresses`: bump the counter, then compress the input twice. */
  method NextAddresses(inst: Instance, input: Block) returns (address: Block, input': Block)
    ensures input' == input[6 := Bump(input[6])]
    ensures address == inst.compress(ZERO_BLOCK, inst.compress(ZERO_BLOCK, input'))
  {
    input' := input[6 := Bump(input[6])];
    address := FillBlock(inst, ZERO_BLOCK, input', ZERO_BLOCK, false);
    var seed := address;
    address := FillBlock(inst, ZERO_BLOCK, seed, address, false);
  }

  /** The value of the address counter before block `i`. */
  function Counter(i: nat): nat { (i + 127) / 128 }

  /** The address blocks `fill_segment` carries from one block to the next. */
  predicate AddressesReady(inst: Instance, pos: Position, address: Block, input: Block) {
    DataIndependent(inst, pos.pass, pos.slice) ==>
      && Counter(pos.index) < 0x1_0000_0000
      && input == AddressInput(inst, pos, Counter(pos.index))
      && (pos.index % 128 != 0 ==> address == AddressBlock(inst, pos, Counter(pos.index)))
  }

  /** The seed block does not mention the index. */
  lemma InputIgnoresIndex(inst: Instance, p1: Position, p2: Position, counter: u64)
    requires p1.pass == p2.pass && p1.lane == p2.lane && p1.slice == p2.slice
    ensures AddressInput(inst, p1, counter) == AddressInput(inst, p2, counter)
  {
  }

  lemma InputBump(inst: Instance, pos: Position, counter: u64)
    requires counter < 0x1_0000_0000
    ensures AddressInput(inst, pos, counter)[6 := Bump(counter)] == AddressInput(inst, pos, counter + 1)
  {
  }

  /** 1.2.1: taking the pseudo-random value, from the addresses or the previous block. */
  method TakeRandom(inst: Instance, mem: array<Block>, pos: Position, prev: u32, address: Block, input: Block)
    returns (rand: u64, address': Block, input': Block)
    requires WellFormed(inst) && InRange(inst, pos) && Sized(inst, mem[..])
    requires prev == PrevOffset(inst, pos) && prev < mem.Length
    requires AddressesReady(inst, pos, address, input)
    ensures rand == PseudoRand(inst, mem[..], pos)
    ensures pos.index + 1 < inst.layout.segmentLength ==>
              AddressesReady(inst, pos.(index := pos.index + 1), address', input')
  {
    hide WellFormed, PrevOffset;
    address', input' := address, input;
    if DataIndependent(inst, pos.pass, pos.slice) {
      var slot := pos.index % 128;
      if slot == 0 {
        InputBump(inst, pos, Counter(pos.index));
        address', input' := NextAddresses(inst, input);
      }
      rand := address'[slot];
      if pos.index + 1 < inst.layout.segmentLength {
        InputIgnoresIndex(inst, pos, pos.(index := pos.index + 1), pos.index / 128 + 1);
      }
    } else {
      rand := mem[prev][0];
    }
  }

  /** The offset of the reference block as the source computes it. */
  lemma RefOffsetIs(inst: Instance, pos: Position, rand: u64)
    requires WellFormed(inst) && InRange(inst, pos)
    ensures var lane := if pos.pass == 0 && pos.slice == 0 then pos.lane else rand / 0x1_0000_0000 % inst.lanes;
            RefOffset(inst, pos, rand)
            == inst.layout.laneLength * lane + IndexAlpha(inst.layout, pos, rand % 0x1_0000_0000, lane == pos.lane)
  {
    hide WellFormed, IndexAlpha, InRange;
    TimesIsProduct(RefLane(inst, pos, rand), inst.layout.laneLength);
  }

  /** 2: creating the new block from the offsets of its neighbours. */
  method CreateBlock(inst: Instance, mem: array<Block>, pos: Position, prev: u32, curr: u32, rand: u64)
    requires WellFormed(inst) && InRange(inst, pos) && Sized(inst, mem[..])
    requires prev == PrevOffset(inst, pos) && curr == CurrOffset(inst, pos)
    requires rand == PseudoRand(inst, mem[..], pos)
    modifies mem
    ensures mem[..] == WriteBlock(inst, old(mem[..]), pos)
  {
    assert inst.lanes > 0;
    hide WellFormed, PrevOffset, CurrOffset, RefOffset, PseudoRand, IndexAlpha, InRange;
    AccessFacts(inst, pos, rand);
    RefOffsetIs(inst, pos, rand);
    var refLane: u32 := rand / 0x1_0000_0000 % inst.lanes;
    if pos.pass == 0 && pos.slice == 0 {
      refLane := pos.lane;
    }
    var refIndex := IndexAlpha(inst.layout, pos, rand % 0x1_0000_0000, refLane == pos.lane);
    var refOffset := inst.layout.laneLength * refLane + refIndex;
    assert refOffset == RefOffset(inst, pos, rand);
    mem[curr] := FillBlock(inst, mem[prev], mem[refOffset], mem[curr], WithXor(inst, pos.pass));
  }

  /** What one turn of the loop of `fill_segment` relies on. */
  ghost predicate Running(inst: Instance, pos: Position, curr: u32, prev: u32, address: Block, input: Block)
    requires WellFormed(inst) && InRange(inst, pos)
  {
    && curr == CurrOffset(inst, pos)
    && (curr % inst.layout.laneLength == 1 || prev == PrevOffset(inst, pos))
    && AddressesReady(inst, pos, address, input)
  }

  /** The offsets and address blocks `fill_segment` starts from. */
  method SegmentStart(inst: Instance, origin: Position)
    returns (start: u32, curr: u32, prev: u32, address: Block, input: Block)
    requires WellFormed(inst) && origin.index == 0
    requires origin.pass < inst.passes && origin.lane < inst.lanes && origin.slice < SYNC_POINTS
    ensures start == StartIndex(4 * origin.pass + origin.slice) <= inst.layout.segmentLength
    ensures start < inst.layout.segmentLength ==> Running(inst, origin.(index := start), curr, prev, address, input)
  {
    var y := inst.layout;
    var independent := DataIndependent(inst, origin.pass, origin.slice);
    address, input := ZERO_BLOCK, ZERO_BLOCK;
    if independent {
      input := AddressInput(inst, origin, 0);
    }
    start := 0;
    if origin.pass == 0 && origin.slice == 0 {
      start := 2;
      if independent {
        InputBump(inst, origin, 0);
        address, input := NextAddresses(inst, input);
        InputIgnoresIndex(inst, origin, origin.(index := 2), 1);
      }
    }
    StartOffset(inst, origin.lane, origin.slice, start);
    curr := WrapAdd(WrapAdd(WrapMul(origin.lane, y.laneLength), WrapMul(origin.slice, y.segmentLength)), start);
    prev := if curr % y.laneLength == 0 then WrapSub(WrapAdd(curr, y.laneLength), 1) else WrapSub(curr, 1);
    if start < y.segmentLength {
      PrevIsPrevious(inst, origin.(index := start), curr, prev);
    }
  }

  /** One turn: rotate the previous offset, take the random value, create the block, move both offsets on. */
  method FillTurn(inst: Instance, mem: array<Block>, pos: Position, curr: u32, prev: u32, address: Block, input: Block)
    returns (curr': u32, prev': u32, address': Block, input': Block)
    requires WellFormed(inst) && InRange(inst, pos) && Sized(inst, mem[..])
    requires Running(inst, pos, curr, prev, address, input)
    modifies mem
    ensures mem[..] == WriteBlock(inst, old(mem[..]), pos)
    ensures pos.index + 1 < inst.layout.segmentLength ==>
              Running(inst, pos.(index := pos.index + 1), curr', prev', address', input')
  {
    assert inst.layout.laneLength > 0;
    hide WellFormed, PrevOffset, CurrOffset, AddressesReady, WriteBlock;
    prev' := prev;
    if curr % inst.layout.laneLength == 1 {
      prev' := WrapSub(curr, 1);
    }
    PrevRotated(inst, pos, curr, prev');
    var rand: u64;
    rand, address', input' := TakeRandom(inst, mem, pos, prev', address, input);
    CreateBlock(inst, mem, pos, prev', curr, rand);
    NextOffsets(inst, pos, curr, prev');
    curr', prev' := WrapAdd(curr, 1), WrapAdd(prev', 1);
  }

  /** `fill_segment`, with the source's running offsets in wrapping `u32` arithmetic. */
  method FillSegment(inst: Instance, mem: array<Block>, t: nat, lane: u32)
    requires WellFormed(inst) && Sized(inst, mem[..])
    requires t < 4 * inst.passes && lane < inst.lanes
    modifies mem
    ensures mem[..] == SegmentFill(inst, old(mem[..]), t, lane, inst.layout.segmentLength)
  {
    hide WellFormed, Running, WriteBlock;
    var q := inst.layout.segmentLength;
    var pos := Position(t / 4, lane, t % 4, 0);
    var start: u32, curr: u32, prev: u32, address: Block, input: Block := SegmentStart(inst, pos);
    pos := pos.(index := start);
    while pos.index < q
      invariant start <= pos.index <= q
      invariant pos == Position(t / 4, lane, t % 4, pos.index)
      invariant mem[..] == SegmentFill(inst, old(mem[..]), t, lane, pos.index)
      invariant pos.index < q ==> Running(inst, pos, curr, prev, address, input)
    {
      curr, prev, address, input := FillTurn(inst, mem, pos, curr, prev, address, input);
      pos := pos.(index := pos.index + 1);
    }
  }

  lemma StartOffset(inst: Instance, lane: u32, slice: u32, start: u32)
    requires WellFormed(inst) && lane < inst.lanes && slice < 4 && start <= inst.layout.segmentLength
    ensures WrapAdd(WrapAdd(WrapMul(lane, inst.layout.laneLength), WrapMul(slice, inst.layout.segmentLength)), start)
            == At(inst, lane, SliceBase(inst.layout, slice) + start)
  {
    var n := inst.layout.laneLength;
    TimesMono(lane, inst.lanes, n);
    TimesIsProduct(lane, n);
    SliceBaseIsWrapMul(inst.layout, slice);
    assert WrapMul(lane, n) == Times(lane, n);
    Sum(Times(lane, n), SliceBase(inst.layout, slice), start);
  }

  lemma Sum(a: u32, b: u32, c: u32)
    requires a + b + c < 0x1_0000_0000
    ensures WrapAdd(WrapAdd(a, b), c) == a + b + c
  {
  }

  lemma OffsetFacts(inst: Instance, pos: Position)
    requires WellFormed(inst) && InRange(inst, pos)
    ensures CurrOffset(inst, pos) < inst.layout.blocks
    ensures CurrOffset(inst, pos) % inst.layout.laneLength == Column(inst.layout, pos)
    ensures PrevOffset(inst, pos) == if Column(inst.layout, pos) == 0
                                     then CurrOffset(inst, pos) + inst.layout.laneLength - 1
                                     else CurrOffset(inst, pos) - 1
    ensures PrevOffset(inst, pos) < inst.layout.blocks
  {
    hide IndexAlpha;
    AccessFacts(inst, pos, 0);
    ColumnIsRemainder(inst.layout.laneLength, CurrOffset(inst, pos));
  }

  /** The two wrapping formulas for the previous block. */
  lemma PrevIsPrevious(inst: Instance, pos: Position, curr: u32, prev: u32)
    requires WellFormed(inst) && InRange(inst, pos) && curr == CurrOffset(inst, pos)
    requires prev == if curr % inst.layout.laneLength == 0
                     then WrapSub(WrapAdd(curr, inst.layout.laneLength), 1) else WrapSub(curr, 1)
    ensures prev == PrevOffset(inst, pos)
  {
    assert inst.layout.laneLength > 0;
    hide PrevOffset, CurrOffset, WellFormed, WrapAdd, WrapSub, Column;
    OffsetFacts(inst, pos);
    if curr % inst.layout.laneLength == 0 {
      NoWrap(curr, inst.layout.laneLength);
    } else {
      OneBefore(curr);
    }
  }

  lemma OneBefore(curr: u32)
    requires curr > 0
    ensures WrapSub(curr, 1) == curr - 1
  {
  }

  /** 1.1: rotating the previous offset after the wrap-around. */
  lemma PrevRotated(inst: Instance, pos: Position, curr: u32, prev: u32)
    requires WellFormed(inst) && InRange(inst, pos) && curr == CurrOffset(inst, pos)
    requires if curr % inst.layout.laneLength == 1 then prev == WrapSub(curr, 1) else prev == PrevOffset(inst, pos)
    ensures prev == PrevOffset(inst, pos)
    ensures prev < inst.layout.blocks
  {
    assert inst.layout.laneLength > 0;
    hide PrevOffset, CurrOffset, WellFormed, WrapSub, Column;
    OffsetFacts(inst, pos);
    if curr % inst.layout.laneLength == 1 {
      OneBefore(curr);
    }
  }

  /** The offset and the column of the next block of the segment. */
  lemma NextColumn(inst: Instance, pos: Position)
    requires WellFormed(inst) && InRange(inst, pos) && pos.index + 1 < inst.layout.segmentLength
    ensures InRange(inst, pos.(index := pos.index + 1))
    ensures Column(inst.layout, pos.(index := pos.index + 1)) == Column(inst.layout, pos) + 1
    ensures CurrOffset(inst, pos.(index := pos.index + 1)) == CurrOffset(inst, pos) + 1
  {
    hide SliceBase, Times;
  }

  /** The block before the next one is the current one, or the one before it when that has wrapped round. */
  lemma NextPrevious(inst: Instance, pos: Position, curr: u32, prev: u32)
    requires WellFormed(inst) && InRange(inst, pos) && pos.index + 1 < inst.layout.segmentLength
    requires curr == CurrOffset(inst, pos) && prev == PrevOffset(inst, pos) && curr + 1 < 0x1_0000_0000
    ensures InRange(inst, pos.(index := pos.index + 1)) && inst.layout.laneLength > 0
    ensures (curr + 1) % inst.layout.laneLength == 1
            || WrapAdd(prev, 1) == PrevOffset(inst, pos.(index := pos.index + 1))
  {
    assert inst.layout.laneLength > 0;
    hide PrevOffset, CurrOffset, WellFormed, Column, InRange;
    NextColumn(inst, pos);
    OffsetFacts(inst, pos);
    OffsetFacts(inst, pos.(index := pos.index + 1));
  }

  /** Moving both offsets on by one keeps them right, or leaves the current one at column 1. */
  lemma NextOffsets(inst: Instance, pos: Position, curr: u32, prev: u32)
    requires WellFormed(inst) && InRange(inst, pos)
    requires curr == CurrOffset(inst, pos) && prev == PrevOffset(inst, pos)
    ensures WrapAdd(curr, 1) == curr + 1
    ensures pos.index + 1 < inst.layout.segmentLength ==>
              var next := pos.(index := pos.index + 1);
              && WrapAdd(curr, 1) == CurrOffset(inst, next)
              && ((curr + 1) % inst.layout.laneLength == 1 || WrapAdd(prev, 1) == PrevOffset(inst, next))
  {
    assert inst.layout.laneLength > 0;
    hide PrevOffset, CurrOffset, WellFormed, Column;
    CurrFits(inst, pos);
    if pos.index + 1 < inst.layout.segmentLength {
      NextColumn(inst, pos);
      NextPrevious(inst, pos, curr, prev);
    }
  }

  lemma CurrFits(inst: Instance, pos: Position)
    requires WellFormed(inst) && InRange(inst, pos)
    ensures CurrOffset(inst, pos) + 1 < 0x1_0000_0000
  {
    hide PrevOffset, CurrOffset, WellFormed, Column;
    OffsetFacts(inst, pos);
  }

  /** `fill_slice_st`: one slice, lane after lane. */
  method FillSliceSt(inst: Instance, mem: array<Block>, t: nat)
    requires WellFormed(inst) && Sized(inst, mem[..])
    requires t < 4 * inst.passes
    modifies mem
    ensures mem[..] == SliceFill(inst, old(mem[..]), t, inst.lanes)
  {
    for lane := 0 to inst.lanes
      invariant mem[..] == SliceFill(inst, old(mem[..]), t, lane)
    {
      FillSegment(inst, mem, t, lane);
    }
  }

  method FillPassSt(inst: Instance, mem: array<Block>, pass: nat, ghost m0: seq<Block>)
    requires WellFormed(inst) && Sized(inst, m0) && pass < inst.passes
    requires mem[..] == SequentialFill(inst, m0, 4 * pass)
    modifies mem
    ensures mem[..] == SequentialFill(inst, m0, 4 * (pass + 1))
  {
    hide WellFormed, SliceFill, SegmentFill;
    for slice := 0 to SYNC_POINTS
      invariant mem[..] == SequentialFill(inst, m0, 4 * pass + slice)
    {
      FillSliceSt(inst, mem, 4 * pass + slice);
    }
  }

  /** One pass, and the memory its callback sees if there is one. */
  method TracedPass(inst: Instance, mem: array<Block>, pass: nat, traced: bool, ghost m0: seq<Block>,
                    traces: seq<seq<Block>>)
    returns (traces': seq<seq<Block>>)
    requires WellFormed(inst) && Sized(inst, m0) && pass < inst.passes
    requires mem[..] == SequentialFill(inst, m0, 4 * pass)
    requires traces == if traced then SequentialTraces(inst, m0, pass) else []
    modifies mem
    ensures mem[..] == SequentialFill(inst, m0, 4 * (pass + 1))
    ensures traces' == if traced then SequentialTraces(inst, m0, pass + 1) else []
  {
    hide WellFormed, SequentialFill;
    FillPassSt(inst, mem, pass, m0);
    traces' := if traced then traces + [mem[..]] else traces;
  }

  lemma NothingFilled(inst: Instance, m: seq<Block>)
    requires WellFormed(inst) && Sized(inst, m)
    ensures SequentialFill(inst, m, 0) == m && SequentialTraces(inst, m, 0) == []
  {
  }

  /** The single-threaded arm of `fill_memory_blocks_traced`, with the memories its callback sees if it has one. */
  method FillMemoryBlocksSt(inst: Instance, mem: array<Block>, traced: bool) returns (traces: seq<seq<Block>>)
    requires WellFormed(inst) && Sized(inst, mem[..])
    modifies mem
    ensures mem[..] == SequentialFill(inst, old(mem[..]), 4 * inst.passes)
    ensures traces == if traced then SequentialTraces(inst, old(mem[..]), inst.passes) else []
  {
    hide WellFormed, SequentialFill, SequentialTraces;
    traces := [];
    ghost var m0 := mem[..];
    NothingFilled(inst, m0);
    for pass := 0 to inst.passes
      invariant mem[..] == SequentialFill(inst, m0, 4 * pass)
      invariant traces == if traced then SequentialTraces(inst, m0, pass) else []
    {
      traces := TracedPass(inst, mem, pass, traced, m0, traces);
    }
  }
}
