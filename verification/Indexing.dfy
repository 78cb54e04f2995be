/** Choosing the reference block: the position mapping, in the source's 32- and 64-bit arithmetic. */
module Indexing {
  import opened Machine
  import opened Params

  /** Where the fill is: block `index` of segment `slice` of lane `lane` in pass `pass`. */
  datatype Position = Position(pass: u32, lane: u32, slice: u32, index: u32)

  /** The number of candidate blocks, in wrapping `u32` arithmetic. */
  function AreaSize(y: Layout, pos: Position, sameLane: bool): u32 {
    var atStart: u32 := if pos.index == 0 then 1 else 0;
    if pos.pass == 0 then
      if pos.slice == 0 then WrapSub(pos.index, 1)
      else if sameLane then WrapSub(WrapAdd(WrapMul(pos.slice, y.segmentLength), pos.index), 1)
      else WrapSub(WrapMul(pos.slice, y.segmentLength), atStart)
    else if sameLane then
      WrapSub(WrapAdd(WrapSub(y.laneLength, y.segmentLength), pos.index), 1)
    else
      WrapSub(WrapSub(y.laneLength, y.segmentLength), atStart)
  }

  /** The distance from the start of the window, in wrapping `u64` arithmetic. */
  function Relative(area: u32, rand: u32): u64 {
    var squared: u64 := (rand * rand) % 0x1_0000_0000_0000_0000 / 0x1_0000_0000;
    (WrapSub(area, 1) - (area * squared) % 0x1_0000_0000_0000_0000 / 0x1_0000_0000) % 0x1_0000_0000_0000_0000
  }

  /** The first block of the window. */
  function StartPosition(y: Layout, pos: Position): u32 {
    if pos.pass == 0 then 0
    else if pos.slice == SYNC_POINTS - 1 then 0
    else WrapMul(WrapAdd(pos.slice, 1), y.segmentLength)
  }

  /** `index_alpha`: the index, within its lane, of the reference block. */
  function IndexAlpha(y: Layout, pos: Position, rand: u32, sameLane: bool): u32 {
    if y.laneLength == 0 then 0
    else
      var absolute: u64 := (StartPosition(y, pos)
        + Relative(AreaSize(y, pos, sameLane), rand)) % 0x1_0000_0000_0000_0000;
      absolute % y.laneLength % 0x1_0000_0000
  }

  // ---------------------------------------------------------------------------
  // The specification: section 3.4.2 of RFC 9106, in unbounded arithmetic
  // ---------------------------------------------------------------------------

  /** A layout as `MemoryLayout` produces it. */
  predicate Sound(y: Layout) {
    y.segmentLength >= 2 && y.laneLength == 4 * y.segmentLength
  }

  /** A position the fill visits; the first two blocks of a lane are not filled by it. */
  predicate Visited(y: Layout, pos: Position) {
    && pos.slice < SYNC_POINTS
    && pos.index < y.segmentLength
    && (pos.pass == 0 && pos.slice == 0 ==> pos.index >= 2)
  }

  /** Other lanes cannot be referenced in the first slice of the first pass. */
  predicate MayCross(pos: Position) {
    pos.pass != 0 || pos.slice != 0
  }

  /** The first column of a slice: `slice * segment_length`, case by case. */
  function SliceBase(y: Layout, slice: nat): nat {
    if slice == 0 then 0
    else if slice == 1 then y.segmentLength
    else if slice == 2 then 2 * y.segmentLength
    else if slice == 3 then 3 * y.segmentLength
    else 4 * y.segmentLength
  }

  /** The number of blocks already finished that this position may reference. */
  function WindowSize(y: Layout, pos: Position, sameLane: bool): int {
    var finished := if pos.pass == 0 then SliceBase(y, pos.slice) else 3 * y.segmentLength;
    if sameLane then finished + pos.index - 1
    else if pos.index == 0 then finished - 1
    else finished
  }

  /** The window starts after the live segment, except in pass 0, where it starts the lane. */
  function WindowStart(y: Layout, pos: Position): nat {
    if pos.pass == 0 || pos.slice == 3 then 0 else SliceBase(y, pos.slice + 1)
  }

  /** The `z`-th block of the window, counting round the lane. */
  function InWindow(y: Layout, pos: Position, z: nat): nat
    requires y.laneLength > 0
  {
    (WindowStart(y, pos) + z) % y.laneLength
  }

  /** The mapping of section 3.4.2, with the two shifts as divisions. */
  function Mapping(area: nat, rand: u32): int {
    area - 1 - area * (rand * rand / 0x1_0000_0000) / 0x1_0000_0000
  }

  // ---------------------------------------------------------------------------
  // Range
  // ---------------------------------------------------------------------------

  lemma SquareBound(rand: u32)
    ensures 0 <= rand * rand <= 0xFFFF_FFFF * 0xFFFF_FFFF
    ensures 0 <= rand * rand / 0x1_0000_0000 <= 0xFFFF_FFFE
  {
    MulMono(rand, 0xFFFF_FFFF, rand);
    MulMono(rand, 0xFFFF_FFFF, 0xFFFF_FFFF);
  }

  /** The mapping takes every 32-bit value into the window. */
  lemma MappingRange(area: nat, rand: u32)
    requires 1 <= area < 0x1_0000_0000
    ensures 0 <= Mapping(area, rand) < area
    ensures 0 <= area * (rand * rand / 0x1_0000_0000) < 0x1_0000_0000_0000_0000
  {
    SquareBound(rand);
    var x := rand * rand / 0x1_0000_0000;
    MulMono(x, 0xFFFF_FFFE, area);
    MulMono(0, x, area);
    assert area * x <= area * (0xFFFF_FFFE) < area * 0x1_0000_0000;
  }

  lemma Unwrapped(area: u32, p: nat, a: nat)
    requires 1 <= area && p < 0x1_0000_0000_0000_0000 && a < 0x1_0000_0000_0000_0000
    requires 0 <= area - 1 - a / 0x1_0000_0000
    ensures p % 0x1_0000_0000_0000_0000 == p
    ensures (WrapSub(area, 1) - a % 0x1_0000_0000_0000_0000 / 0x1_0000_0000) % 0x1_0000_0000_0000_0000
            == area - 1 - a / 0x1_0000_0000
  {
  }

  /** The source's wrapping arithmetic computes the mapping: nothing wraps. */
  lemma RelativeIsMapping(area: u32, rand: u32)
    requires 1 <= area
    ensures Relative(area, rand) == Mapping(area, rand)
  {
    SquareBound(rand);
    MappingRange(area, rand);
    var p := rand * rand;
    Unwrapped(area, p, area * (p / 0x1_0000_0000));
  }

  /** `SliceBase` is the product the source computes. */
  lemma SliceBaseIsProduct(y: Layout, slice: nat)
    requires slice <= 4
    ensures SliceBase(y, slice) == slice * y.segmentLength
  {
  }

  /** For the slices of a lane the product does not wrap. */
  lemma SliceBaseIsWrapMul(y: Layout, slice: u32)
    requires slice <= 4 && 4 * y.segmentLength < 0x1_0000_0000
    ensures WrapMul(slice, y.segmentLength) == SliceBase(y, slice)
  {
    SliceBaseIsProduct(y, slice);
  }

  /** The window size does not wrap and is at least one block. */
  lemma AreaIsWindow(y: Layout, pos: Position, sameLane: bool)
    requires Sound(y) && Visited(y, pos)
    requires !sameLane ==> MayCross(pos)
    ensures AreaSize(y, pos, sameLane) == WindowSize(y, pos, sameLane)
    ensures 1 <= WindowSize(y, pos, sameLane) <= y.laneLength - 2
  {
    var q := y.segmentLength;
    SliceBaseIsWrapMul(y, pos.slice);
    hide WrapMul;
    if pos.pass == 0 {
      if pos.slice != 0 && sameLane {
        NoWrap(SliceBase(y, pos.slice), pos.index);
      }
    } else {
      assert WrapSub(y.laneLength, q) == 3 * q;
      if sameLane {
        NoWrap(3 * q, pos.index);
      }
    }
  }

  lemma NoWrap(a: u32, b: u32)
    requires 1 <= a + b < 0x1_0000_0000
    ensures WrapSub(WrapAdd(a, b), 1) == a + b - 1
  {
  }

  lemma StartIsWindow(y: Layout, pos: Position)
    requires Sound(y) && Visited(y, pos)
    ensures StartPosition(y, pos) == WindowStart(y, pos) < y.laneLength
  {
    SliceBaseIsWrapMul(y, pos.slice + 1);
    hide WrapMul;
    assert WrapAdd(pos.slice, 1) == pos.slice + 1;
  }

  /** `index_alpha` is the block of the window the standard's mapping picks. */
  lemma IndexAlphaIsMapping(y: Layout, pos: Position, rand: u32, sameLane: bool)
    requires Sound(y) && Visited(y, pos)
    requires !sameLane ==> MayCross(pos)
    ensures 0 <= Mapping(WindowSize(y, pos, sameLane), rand) < WindowSize(y, pos, sameLane)
    ensures IndexAlpha(y, pos, rand, sameLane) == InWindow(y, pos, Mapping(WindowSize(y, pos, sameLane), rand))
  {
    AreaIsWindow(y, pos, sameLane);
    StartIsWindow(y, pos);
    var area := AreaSize(y, pos, sameLane);
    hide AreaSize, StartPosition, WindowSize, WindowStart, Relative, Mapping;
    MappingRange(area, rand);
    RelativeIsMapping(area, rand);
    Wide(StartPosition(y, pos), Relative(area, rand), y.laneLength);
  }

  lemma Wide(start: u32, z: u64, n: u32)
    requires 0 < n && z < 0x1_0000_0000
    ensures (((start + z) % 0x1_0000_0000_0000_0000) % n) % 0x1_0000_0000 == (start + z) % n
  {
    assert (start + z) % 0x1_0000_0000_0000_0000 == start + z;
    assert (start + z) % n < n;
  }

  // ---------------------------------------------------------------------------
  // What the window excludes
  // ---------------------------------------------------------------------------

  /** The column, within its lane, of the block a position writes. */
  function Column(y: Layout, pos: Position): nat { SliceBase(y, pos.slice) + pos.index }

  /** The column of the block before it, round the lane. */
  function PreviousColumn(y: Layout, pos: Position): int {
    if Column(y, pos) == 0 then y.laneLength - 1 else Column(y, pos) - 1
  }

  lemma RoundTheLane(s: nat, n: nat)
    requires s < 2 * n
    ensures s % n == if s < n then s else s - n
  {
  }

  /**
   Every block of the window, in its own lane, is outside the live segment or before the current
   block, and is neither the current block nor the one before it; in another lane it is outside the
   live segment. In the first pass it lies in what has been written.
   */
  lemma WindowIsSafe(y: Layout, pos: Position, sameLane: bool, z: nat)
    requires Sound(y) && Visited(y, pos)
    requires !sameLane ==> MayCross(pos)
    requires z < WindowSize(y, pos, sameLane)
    ensures var c := InWindow(y, pos, z);
            && c < y.laneLength
            && (sameLane ==> c != Column(y, pos) && c != PreviousColumn(y, pos))
            && (SliceBase(y, pos.slice) <= c < SliceBase(y, pos.slice + 1) ==> sameLane && c < Column(y, pos))
            && (pos.pass == 0 ==> c < if sameLane then Column(y, pos) else SliceBase(y, pos.slice))
  {
    AreaIsWindow(y, pos, sameLane);
    hide AreaSize;
    var s := WindowStart(y, pos) + z;
    StartIsWindow(y, pos);
    RoundTheLane(s, y.laneLength);
  }

  /** Column `c` can be referenced: it is some block of the window. */
  ghost predicate InReach(y: Layout, pos: Position, sameLane: bool, c: nat)
    requires y.laneLength > 0
  {
    exists z: nat :: z < WindowSize(y, pos, sameLane) && InWindow(y, pos, z) == c
  }

  /** How far a column is from the start of the window, round the lane. */
  function FromStart(y: Layout, pos: Position, c: nat): nat
    requires WindowStart(y, pos) < y.laneLength && c < y.laneLength
  {
    if WindowStart(y, pos) <= c then c - WindowStart(y, pos) else c + y.laneLength - WindowStart(y, pos)
  }

  lemma ReachIsDistance(y: Layout, pos: Position, sameLane: bool, c: nat)
    requires Sound(y) && Visited(y, pos) && c < y.laneLength && WindowStart(y, pos) < y.laneLength
    requires !sameLane ==> MayCross(pos)
    ensures InReach(y, pos, sameLane, c) <==> FromStart(y, pos, c) < WindowSize(y, pos, sameLane)
  {
    AreaIsWindow(y, pos, sameLane);
    hide AreaSize, StartPosition, WindowSize, WindowStart;
    var start, n, z := WindowStart(y, pos), y.laneLength, FromStart(y, pos, c);
    RoundTheLane(start + z, n);
    assert InWindow(y, pos, z) == c;
    forall z': nat | z' < WindowSize(y, pos, sameLane) && InWindow(y, pos, z') == c
      ensures z' == z
    {
      RoundTheLane(start + z', n);
    }
  }

  /** What may be referenced, by columns alone. */
  predicate Listed(y: Layout, pos: Position, sameLane: bool, c: nat) {
    var base := pos.slice * y.segmentLength;
    var curr := base + pos.index;
    var live := base <= c < base + y.segmentLength;
    var previous := c + 1 == curr || (curr == 0 && c == y.laneLength - 1);
    && (pos.pass == 0 ==> c < curr)
    && (live ==> sameLane && c < curr)
    && (sameLane || pos.index == 0 ==> !previous)
  }

  /**
   The window holds exactly what section 3.4.2 of RFC 9106 lists. In the own lane: all that is finished
   but the block before, where after the first pass all is finished but the rest of the live segment. In
   another lane: all that is finished outside the live segment, but its last block when a segment begins.
   */
  lemma WindowIsExact(y: Layout, pos: Position, sameLane: bool, c: nat)
    requires Sound(y) && Visited(y, pos) && c < y.laneLength
    requires !sameLane ==> MayCross(pos)
    ensures InReach(y, pos, sameLane, c) <==> Listed(y, pos, sameLane, c)
  {
    hide InReach, StartPosition;
    SliceBaseIsProduct(y, pos.slice);
    StartIsWindow(y, pos);
    ReachIsDistance(y, pos, sameLane, c);
  }

  /** The argument every shared-memory access rests on, for `index_alpha` itself. */
  lemma IndexAlphaIsSafe(y: Layout, pos: Position, rand: u32, sameLane: bool)
    requires Sound(y) && Visited(y, pos)
    requires !sameLane ==> MayCross(pos)
    ensures var c := IndexAlpha(y, pos, rand, sameLane);
            && c < y.laneLength
            && (sameLane ==> c != Column(y, pos) && c != PreviousColumn(y, pos))
            && (SliceBase(y, pos.slice) <= c < SliceBase(y, pos.slice + 1) ==> sameLane && c < Column(y, pos))
            && (pos.pass == 0 ==> c < if sameLane then Column(y, pos) else SliceBase(y, pos.slice))
  {
    IndexAlphaIsMapping(y, pos, rand, sameLane);
    hide IndexAlpha, Mapping;
    WindowIsSafe(y, pos, sameLane, Mapping(WindowSize(y, pos, sameLane), rand));
  }

  // ---------------------------------------------------------------------------
  // Monotonicity and reach
  // ---------------------------------------------------------------------------

  lemma SquareMono(a: nat, b: nat)
    requires a <= b
    ensures a * a <= b * b
  {
    MulMono(a, b, a);
    MulMono(a, b, b);
  }

  lemma DivMono(a: int, b: int)
    requires a <= b
    ensures a / 0x1_0000_0000 <= b / 0x1_0000_0000
  {
  }

  /** Larger random values pick older blocks. */
  lemma MappingAntitone(area: nat, r1: u32, r2: u32)
    requires r1 <= r2
    ensures Mapping(area, r2) <= Mapping(area, r1)
  {
    SquareMono(r1, r2);
    DivMono(r1 * r1, r2 * r2);
    var x1, x2 := r1 * r1 / 0x1_0000_0000, r2 * r2 / 0x1_0000_0000;
    MulMono(x1, x2, area);
    DivMono(area * x1, area * x2);
  }

  /** Up to an area of 2^31, the next random value moves the choice by at most one block. */
  lemma MappingStep(area: nat, rand: u32)
    requires area <= 0x8000_0000 && rand + 1 < 0x1_0000_0000
    ensures Mapping(area, rand) - 1 <= Mapping(area, rand + 1)
  {
    var r2 := rand + 1;
    assert r2 * r2 == rand * rand + 2 * rand + 1;
    var x1, x2 := rand * rand / 0x1_0000_0000, r2 * r2 / 0x1_0000_0000;
    assert x2 <= x1 + 2;
    MulMono(x2, x1 + 2, area);
    assert area * (x1 + 2) == area * x1 + 2 * area;
  }

  /** The smallest random value picks the newest block. */
  lemma MappingAtZero(area: nat)
    ensures Mapping(area, 0) == area - 1
  {
  }

  /** The largest picks the oldest block, or the second oldest when the area exceeds 2^31. */
  lemma MappingAtMax(area: nat)
    requires 1 <= area < 0x1_0000_0000
    ensures Mapping(area, 0xFFFF_FFFF) == if area <= 0x8000_0000 then 0 else 1
  {
    assert 0xFFFF_FFFF * 0xFFFF_FFFF / 0x1_0000_0000 == 0xFFFF_FFFE;
  }

  /** Some random value picks block `z` of the window. */
  ghost predicate Reached(area: nat, z: nat) { exists r: u32 :: Mapping(area, r) == z }

  /** A walk from 0 down to `z` one step at a time meets every block on the way. */
  lemma {:induction false} MappingHits(area: nat, rand: u32, z: nat)
    requires area <= 0x8000_0000
    requires Mapping(area, rand) <= z < area
    ensures Reached(area, z)
  {
    if Mapping(area, rand) != z {
      if rand == 0 {
        MappingAtZero(area);
        assert false;
      } else {
        MappingStep(area, rand - 1);
        MappingHits(area, rand - 1, z);
      }
    }
  }

  /** Every block of the window can be chosen exactly when the area is at most 2^31. */
  lemma MappingOnto(area: nat)
    requires 1 <= area < 0x1_0000_0000
    ensures (forall z: nat | z < area :: Reached(area, z)) <==> area <= 0x8000_0000
  {
    MappingAtMax(area);
    if area <= 0x8000_0000 {
      forall z: nat | z < area
        ensures Reached(area, z)
      {
        MappingHits(area, 0xFFFF_FFFF, z);
      }
    } else {
      forall r: u32
        ensures Mapping(area, r) != 0
      {
        MappingAntitone(area, r, 0xFFFF_FFFF);
      }
      assert !Reached(area, 0);
    }
  }
}
