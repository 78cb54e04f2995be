/** From the pre-hash to the tag: first blocks, fill, finalization; and why old arena contents do not matter. */
module Tag {
  import opened Machine
  import opened Params
  import opened Indexing
  import opened Fill
  import opened SliceView
  import opened LittleEndian
  import opened Blake2Stream
  import opened Blake2Long

  // ---------------------------------------------------------------------------
  // First blocks
  // ---------------------------------------------------------------------------

  /** A 1024-byte string as a block. */
  function LoadBlock(b: seq<u8>): Block
    requires |b| == 1024
  {
    BytesToWords(b)
  }

  /** Block `k` of a lane, `k` being 0 or 1: section 3.2, steps 3 and 4, of RFC 9106. */
  function FirstBlock(h0: seq<u8>, lane: u32, k: u32): Block { LoadBlock(HPrime(1024, h0 + Le32(k) + Le32(lane))) }

  /** Two blocks side by side. */
  function PutPair(m: seq<Block>, base: nat, b0: Block, b1: Block): (m': seq<Block>)
    requires base + 1 < |m|
    ensures |m'| == |m|
  {
    m[..base] + [b0, b1] + m[base + 2..]
  }

  /** The arena with the first two blocks of the first `lanes` lanes in place. */
  function FirstBlocks(h0: seq<u8>, m: seq<Block>, lanes: u32, n: nat): (m': seq<Block>)
    requires lanes == 0 || Times(lanes - 1, n) + 1 < |m|
    ensures |m'| == |m|
  {
    if lanes == 0 then m
    else
      FewerLanes(lanes, n);
      PutPair(FirstBlocks(h0, m, lanes - 1, n), Times(lanes - 1, n), FirstBlock(h0, lanes - 1, 0),
        FirstBlock(h0, lanes - 1, 1))
  }

  lemma FewerLanes(lanes: u32, n: nat)
    requires lanes > 0
    ensures lanes > 1 ==> Times(lanes - 2, n) <= Times(lanes - 1, n)
  {
  }

  /** One expansion: the counter and the lane go after the digest, and the hash of all is a block. */
  method ExpandBlock(blockhash: array<u8>, k: u32, lane: u32, vector: bool) returns (block: Block)
    requires blockhash.Length == 72
    modifies blockhash
    ensures blockhash[..64] == old(blockhash[..64])
    ensures block == FirstBlock(blockhash[..64], lane, k)
  {
    hide HPrime, Le32, LeWord;
    var bytes := new u8[1024](_ => 0);
    CopyInto(blockhash, 64, Le32(k));
    CopyInto(blockhash, 68, Le32(lane));
    assert blockhash[..] == blockhash[..64] + Le32(k) + Le32(lane);
    var _ := BlakeLong(bytes, blockhash[..], vector);
    block := LoadBlock(bytes[..]);
  }

  /** The two blocks of one lane, each bounds check before its write. */
  method FillLane(blockhash: array<u8>, arena: array<Block>, lane: u32, laneLength: u32, vector: bool)
      returns (r: Result<()>)
    requires blockhash.Length == 72
    modifies blockhash, arena
    ensures r == if Times(lane, laneLength) + 1 < arena.Length then Ok(()) else Err(IncorrectParameter)
    ensures r.Ok? ==> arena[..] == PutPair(old(arena[..]), Times(lane, laneLength),
                                           FirstBlock(old(blockhash[..64]), lane, 0),
                                           FirstBlock(old(blockhash[..64]), lane, 1))
    ensures blockhash[..64] == old(blockhash[..64])
  {
    hide FirstBlock, Times;
    TimesIsProduct(lane, laneLength);
    var block := ExpandBlock(blockhash, 0, lane, vector);
    var base := lane * laneLength;
    if base >= arena.Length {
      return Err(IncorrectParameter);
    }
    arena[base] := block;
    block := ExpandBlock(blockhash, 1, lane, vector);
    if base + 1 >= arena.Length {
      return Err(IncorrectParameter);
    }
    arena[base + 1] := block;
    r := Ok(());
  }

  /** `fill_first_blocks`: an arena too short for the lanes is an error, found when it is reached. */
  method FillFirstBlocks(blockhash: array<u8>, arena: array<Block>, lanes: u32, laneLength: u32, vector: bool)
      returns (r: Result<()>)
    requires blockhash.Length == 72
    modifies blockhash, arena
    ensures r == if lanes == 0 || Times(lanes - 1, laneLength) + 1 < arena.Length then Ok(())
                 else Err(IncorrectParameter)
    ensures r.Ok? ==> arena[..] == FirstBlocks(old(blockhash[..64]), old(arena[..]), lanes, laneLength)
    ensures blockhash[..64] == old(blockhash[..64])
  {
    hide FirstBlock, PutPair, Times;
    ghost var h0 := blockhash[..64];
    for lane := 0 to lanes
      invariant blockhash[..64] == h0
      invariant lane > 0 ==> Times(lane - 1, laneLength) + 1 < arena.Length
      invariant arena[..] == FirstBlocks(h0, old(arena[..]), lane, laneLength)
    {
      TimesMonoWeak(lane, lanes - 1, laneLength);
      var filled := FillLane(blockhash, arena, lane, laneLength, vector);
      if filled.Err? {
        return filled;
      }
    }
    r := Ok(());
  }

  lemma {:induction false} FirstBlocksAt(h0: seq<u8>, m: seq<Block>, lanes: u32, n: nat, lane: u32, k: u32)
    requires n >= 2 && lane < lanes && k < 2 && Times(lanes - 1, n) + 1 < |m|
    ensures Times(lane, n) + k < |m|
    ensures FirstBlocks(h0, m, lanes, n)[Times(lane, n) + k] == FirstBlock(h0, lane, k)
  {
    hide FirstBlock;
    TimesMonoWeak(lane, lanes - 1, n);
    if lane < lanes - 1 {
      FewerLanes(lanes, n);
      FirstBlocksAt(h0, m, lanes - 1, n, lane, k);
      TimesMono(lane, lanes - 1, n);
    }
  }

  // ---------------------------------------------------------------------------
  // Finalization
  // ---------------------------------------------------------------------------

  /** The XOR of the last blocks of the first `lanes` lanes. */
  function LastBlocks(m: seq<Block>, lanes: u32, n: nat): Block
    requires lanes >= 1 && n >= 1 && Times(lanes - 1, n) + n - 1 < |m|
  {
    if lanes == 1 then m[n - 1]
    else
      TimesMonoWeak(lanes - 2, lanes - 1, n);
      XorBlock(LastBlocks(m, lanes - 1, n), m[Times(lanes - 1, n) + n - 1])
  }

  /** `finalize`. */
  method Finalize(arena: array<Block>, lanes: u32, laneLength: u32, out: array<u8>, vector: bool)
      returns (r: Result<()>)
    modifies out
    ensures r.Ok? <==> laneLength > 0 && lanes > 0 && Times(lanes - 1, laneLength) + laneLength - 1 < arena.Length
                       && 1 <= out.Length <= 0xFFFF_FFFF
    ensures r.Err? ==> r == Err(IncorrectParameter) && out[..] == old(out[..])
    ensures r.Ok? ==> out[..] == HPrime(out.Length, WordsToBytes(LastBlocks(arena[..], lanes, laneLength)))
  {
    hide HPrime, XorBlock;
    if laneLength == 0 || lanes == 0 {
      return Err(IncorrectParameter);
    }
    TimesMonoWeak(0, lanes - 1, laneLength);
    if laneLength - 1 >= arena.Length {
      return Err(IncorrectParameter);
    }
    var blockhash := arena[laneLength - 1];
    for lane := 1 to lanes
      invariant Times(lane - 1, laneLength) + laneLength - 1 < arena.Length
      invariant blockhash == LastBlocks(arena[..], lane, laneLength)
      invariant out[..] == old(out[..])
    {
      TimesMonoWeak(lane, lanes - 1, laneLength);
      TimesIsProduct(lane, laneLength);
      var index := lane * laneLength + (laneLength - 1);
      if index >= arena.Length {
        return Err(IncorrectParameter);
      }
      blockhash := XorBlock(blockhash, arena[index]);
    }
    r := BlakeLong(out, WordsToBytes(blockhash), vector);
  }

  // ---------------------------------------------------------------------------
  // The first pass reads only what has been written
  // ---------------------------------------------------------------------------

  /** The two arenas agree on all that the hash has written by this point of the first pass. */
  ghost predicate Agree(inst: Instance, m1: seq<Block>, m2: seq<Block>, t: nat, progress: Progress)
    requires WellFormed(inst) && |progress| == inst.lanes
  {
    && Sized(inst, m1) && Sized(inst, m2)
    && forall a :: 0 <= a < inst.layout.blocks && LaneOf(inst.layout.laneLength, a) < inst.lanes
         && ColumnOf(inst.layout.laneLength, a) < SliceBase(inst.layout, t)
           + progress[LaneOf(inst.layout.laneLength, a)]
         ==> m1[a] == m2[a]
  }

  /** In the first pass, what a block is made from has been written by this hash. */
  lemma FirstPassReads(inst: Instance, t: nat, progress: Progress, lane: nat, rand: u64)
    requires WellFormed(inst) && t < 4 && ValidProgress(inst, t, progress)
    requires lane < inst.lanes && progress[lane] < inst.layout.segmentLength
    ensures var pos := PositionAt(inst, t, lane, progress[lane]);
            var n, base := inst.layout.laneLength, SliceBase(inst.layout, t);
            && LaneOf(n, PrevOffset(inst, pos)) == lane
            && ColumnOf(n, PrevOffset(inst, pos)) < base + progress[lane]
            && LaneOf(n, RefOffset(inst, pos, rand)) < inst.lanes
            && ColumnOf(n, RefOffset(inst, pos, rand)) < base + progress[LaneOf(n, RefOffset(inst, pos, rand))]
            && !WithXor(inst, pos.pass)
  {
    hide IndexAlpha, RefOffset, PrevOffset;
    var pos := PositionAt(inst, t, lane, progress[lane]);
    AccessFacts(inst, pos, rand);
    var r := RefLane(inst, pos, rand);
    IndexAlphaIsSafe(inst.layout, pos, rand % 0x1_0000_0000, r == lane);
  }

  lemma SamePlace(inst: Instance, a: nat, b: nat)
    requires WellFormed(inst) && a < inst.layout.blocks && b < inst.layout.blocks
    requires LaneOf(inst.layout.laneLength, a) == LaneOf(inst.layout.laneLength, b)
    requires ColumnOf(inst.layout.laneLength, a) == ColumnOf(inst.layout.laneLength, b)
    ensures a == b
  {
    CoordinatesFacts(inst, a);
    CoordinatesFacts(inst, b);
  }

  /** Written by one block more, and not that block: written before it. */
  lemma WrittenBefore(inst: Instance, t: nat, progress: Progress, lane: nat, a: nat)
    requires WellFormed(inst) && t < 4 && ValidProgress(inst, t, progress)
    requires lane < inst.lanes && progress[lane] < inst.layout.segmentLength
    requires a < inst.layout.blocks && LaneOf(inst.layout.laneLength, a) < inst.lanes
    requires ColumnOf(inst.layout.laneLength, a)
      < SliceBase(inst.layout, t) + progress[lane := progress[lane] + 1][LaneOf(inst.layout.laneLength, a)]
    requires a != CurrOffset(inst, PositionAt(inst, t, lane, progress[lane]))
    ensures ColumnOf(inst.layout.laneLength, a) < SliceBase(inst.layout, t)
      + progress[LaneOf(inst.layout.laneLength, a)]
  {
    hide IndexAlpha, RefOffset, PrevOffset, CurrOffset;
    var pos := PositionAt(inst, t, lane, progress[lane]);
    AccessFacts(inst, pos, 0);
    if LaneOf(inst.layout.laneLength, a) == lane && ColumnOf(inst.layout.laneLength, a) == Column(inst.layout, pos) {
      SamePlace(inst, a, CurrOffset(inst, pos));
    }
  }

  lemma WriteAgrees(inst: Instance, m1: seq<Block>, m2: seq<Block>, t: nat, progress: Progress, lane: nat)
    requires WellFormed(inst) && t < 4 && ValidProgress(inst, t, progress)
    requires lane < inst.lanes && progress[lane] < inst.layout.segmentLength
    requires Agree(inst, m1, m2, t, progress)
    ensures var pos := PositionAt(inst, t, lane, progress[lane]);
            Agree(inst, WriteBlock(inst, m1, pos), WriteBlock(inst, m2, pos), t, progress[lane := progress[lane] + 1])
  {
    hide IndexAlpha, RefOffset, PrevOffset, NewBlock, PseudoRand, FillBlock, CurrOffset, SliceBase, LaneOf, ColumnOf;
    var pos := PositionAt(inst, t, lane, progress[lane]);
    var rand := PseudoRand(inst, m1, pos);
    AccessFacts(inst, pos, rand);
    FirstPassReads(inst, t, progress, lane, rand);
    assert m1[PrevOffset(inst, pos)] == m2[PrevOffset(inst, pos)];
    assert m1[RefOffset(inst, pos, rand)] == m2[RefOffset(inst, pos, rand)];
    NewBlockDepends(inst, m1, m2, pos);
    AgreeAfter(inst, m1, m2, t, progress, lane);
  }

  lemma AgreeAfter(inst: Instance, m1: seq<Block>, m2: seq<Block>, t: nat, progress: Progress, lane: nat)
    requires WellFormed(inst) && t < 4 && ValidProgress(inst, t, progress)
    requires lane < inst.lanes && progress[lane] < inst.layout.segmentLength
    requires Agree(inst, m1, m2, t, progress)
    requires NewBlock(inst, m1, PositionAt(inst, t, lane, progress[lane]))
      == NewBlock(inst, m2, PositionAt(inst, t, lane, progress[lane]))
    ensures var pos := PositionAt(inst, t, lane, progress[lane]);
            Agree(inst, WriteBlock(inst, m1, pos), WriteBlock(inst, m2, pos), t, progress[lane := progress[lane] + 1])
  {
    hide IndexAlpha, RefOffset, PrevOffset, NewBlock, CurrOffset, SliceBase, LaneOf, ColumnOf;
    var pos := PositionAt(inst, t, lane, progress[lane]);
    AccessFacts(inst, pos, 0);
    var w1, w2 := WriteBlock(inst, m1, pos), WriteBlock(inst, m2, pos);
    var after := progress[lane := progress[lane] + 1];
    forall a | 0 <= a < inst.layout.blocks && LaneOf(inst.layout.laneLength, a) < inst.lanes
      && ColumnOf(inst.layout.laneLength, a) < SliceBase(inst.layout, t) + after[LaneOf(inst.layout.laneLength, a)]
      ensures w1[a] == w2[a]
    {
      if a != CurrOffset(inst, pos) {
        WrittenBefore(inst, t, progress, lane, a);
      }
    }
  }

  lemma {:induction false} SegmentAgrees(inst: Instance, m1: seq<Block>, m2: seq<Block>, t: nat, progress: Progress,
      lane: nat, k: nat)
    requires Sized(inst, m1) && Sized(inst, m2) && WellFormed(inst) && t < 4 && ValidProgress(inst, t, progress)
    requires lane < inst.lanes && progress[lane] == StartIndex(t) <= k <= inst.layout.segmentLength
    requires Agree(inst, m1, m2, t, progress)
    ensures Agree(inst, SegmentFill(inst, m1, t, lane, k), SegmentFill(inst, m2, t, lane, k), t, progress[lane := k])
  {
    hide Agree, WriteBlock;
    if k == StartIndex(t) {
      assert progress[lane := k] == progress;
    } else {
      SegmentAgrees(inst, m1, m2, t, progress, lane, k - 1);
      WriteAgrees(inst, SegmentFill(inst, m1, t, lane, k - 1), SegmentFill(inst, m2, t, lane, k - 1), t,
        progress[lane := k - 1], lane);
      assert progress[lane := k - 1][lane := k] == progress[lane := k];
    }
  }

  lemma {:induction false} SliceAgrees(inst: Instance, m1: seq<Block>, m2: seq<Block>, t: nat, n: nat)
    requires Sized(inst, m1) && Sized(inst, m2) && WellFormed(inst) && t < 4 && n <= inst.lanes
    requires Agree(inst, m1, m2, t, NoProgress(inst, t))
    ensures Agree(inst, SliceFill(inst, m1, t, n), SliceFill(inst, m2, t, n), t, SequentialProgress(inst, t, n))
  {
    hide Agree, SegmentFill;
    if n == 0 {
      assert SequentialProgress(inst, t, 0) == NoProgress(inst, t);
    } else {
      SliceAgrees(inst, m1, m2, t, n - 1);
      var before, q := SequentialProgress(inst, t, n - 1), inst.layout.segmentLength;
      SegmentAgrees(inst, SliceFill(inst, m1, t, n - 1), SliceFill(inst, m2, t, n - 1), t, before, n - 1, q);
      assert before[n - 1 := q] == SequentialProgress(inst, t, n);
    }
  }

  /** The end of one slice is the beginning of the next. */
  lemma NextSliceAgrees(inst: Instance, m1: seq<Block>, m2: seq<Block>, t: nat)
    requires WellFormed(inst) && t < 4 && Agree(inst, m1, m2, t, SequentialProgress(inst, t, inst.lanes))
    ensures if t < 3 then Agree(inst, m1, m2, t + 1, NoProgress(inst, t + 1)) else m1 == m2
  {
    hide LaneOf, ColumnOf;
    if t == 3 {
      forall a | 0 <= a < inst.layout.blocks
        ensures m1[a] == m2[a]
      {
        CoordinatesFacts(inst, a);
      }
    }
  }

  /** Two arenas with the same first blocks are the same after the first pass. */
  lemma {:induction false} FirstPassAgrees(inst: Instance, m1: seq<Block>, m2: seq<Block>, t: nat)
    requires Sized(inst, m1) && Sized(inst, m2) && WellFormed(inst) && t <= 4
    requires Agree(inst, m1, m2, 0, NoProgress(inst, 0))
    ensures var s1, s2 := SequentialFill(inst, m1, t), SequentialFill(inst, m2, t);
            if t < 4 then Agree(inst, s1, s2, t, NoProgress(inst, t)) else s1 == s2
  {
    hide Agree, SliceFill;
    if t > 0 {
      FirstPassAgrees(inst, m1, m2, t - 1);
      SliceAgrees(inst, SequentialFill(inst, m1, t - 1), SequentialFill(inst, m2, t - 1), t - 1, inst.lanes);
      NextSliceAgrees(inst, SequentialFill(inst, m1, t), SequentialFill(inst, m2, t), t - 1);
    }
  }

  /** And stay the same. */
  lemma {:induction false} FillAgrees(inst: Instance, m1: seq<Block>, m2: seq<Block>, n: nat)
    requires Sized(inst, m1) && Sized(inst, m2) && WellFormed(inst) && 4 <= n <= 4 * inst.passes
    requires Agree(inst, m1, m2, 0, NoProgress(inst, 0))
    ensures SequentialFill(inst, m1, n) == SequentialFill(inst, m2, n)
  {
    hide Agree, SliceFill;
    if n == 4 {
      FirstPassAgrees(inst, m1, m2, 4);
    } else {
      FillAgrees(inst, m1, m2, n - 1);
    }
  }

  // ---------------------------------------------------------------------------
  // The tag
  // ---------------------------------------------------------------------------

  /** The arena before the fill. */
  function StartArena(inst: Instance, h0: seq<u8>, m: seq<Block>): (m': seq<Block>)
    requires WellFormed(inst) && Sized(inst, m)
    ensures Sized(inst, m')
  {
    LastLaneFits(inst);
    FirstBlocks(h0, m, inst.lanes, inst.layout.laneLength)
  }

  lemma LastLaneFits(inst: Instance)
    requires WellFormed(inst)
    ensures Times(inst.lanes - 1, inst.layout.laneLength) + inst.layout.laneLength == inst.layout.blocks
  {
  }

  /** The XOR of the last blocks of all lanes. */
  function FinalBlock(inst: Instance, m: seq<Block>): Block
    requires WellFormed(inst) && Sized(inst, m)
  {
    LastLaneFits(inst);
    LastBlocks(m, inst.lanes, inst.layout.laneLength)
  }

  /** The first blocks of two arenas agree, whatever else the arenas hold. */
  lemma StartsAgree(inst: Instance, h0: seq<u8>, m1: seq<Block>, m2: seq<Block>)
    requires WellFormed(inst) && Sized(inst, m1) && Sized(inst, m2)
    ensures Agree(inst, StartArena(inst, h0, m1), StartArena(inst, h0, m2), 0, NoProgress(inst, 0))
  {
    hide FirstBlock, FirstBlocks, LaneOf, ColumnOf, Times;
    var n := inst.layout.laneLength;
    LastLaneFits(inst);
    var f1, f2 := StartArena(inst, h0, m1), StartArena(inst, h0, m2);
    forall a | 0 <= a < inst.layout.blocks && LaneOf(n, a) < inst.lanes && ColumnOf(n, a) < 2
      ensures f1[a] == f2[a]
    {
      CoordinatesFacts(inst, a);
      FirstBlocksAt(h0, m1, inst.lanes, n, LaneOf(n, a), ColumnOf(n, a));
      FirstBlocksAt(h0, m2, inst.lanes, n, LaneOf(n, a), ColumnOf(n, a));
    }
  }

  function ZeroArena(inst: Instance): (m: seq<Block>)
    ensures |m| == inst.layout.blocks
  {
    seq(inst.layout.blocks, i => ZERO_BLOCK)
  }

  /** The arena after the fill, started from fresh zeros: section 3.2 of RFC 9106. */
  function FilledArena(inst: Instance, h0: seq<u8>): (m: seq<Block>)
    requires WellFormed(inst)
    ensures Sized(inst, m)
  {
    SequentialFill(inst, StartArena(inst, h0, ZeroArena(inst)), 4 * inst.passes)
  }

  /** The tag of a filled arena. */
  function TagOf(inst: Instance, m: seq<Block>, outLen: u32): (tag: seq<u8>)
    requires WellFormed(inst) && Sized(inst, m) && outLen >= 1
    ensures |tag| == outLen
  {
    HPrime(outLen, WordsToBytes(FinalBlock(inst, m)))
  }

  /** Whatever the arena held, the fill leaves what it leaves of fresh zeros. */
  lemma OldContentsDoNotMatter(inst: Instance, h0: seq<u8>, m: seq<Block>)
    requires WellFormed(inst) && Sized(inst, m)
    ensures SequentialFill(inst, StartArena(inst, h0, m), 4 * inst.passes) == FilledArena(inst, h0)
  {
    hide StartArena, Agree, SequentialFill;
    StartsAgree(inst, h0, m, ZeroArena(inst));
    FillAgrees(inst, StartArena(inst, h0, m), StartArena(inst, h0, ZeroArena(inst)), 4 * inst.passes);
  }

  /** Nor does a trace see any of it. */
  lemma {:induction false} OldContentsAreNotTraced(inst: Instance, h0: seq<u8>, m: seq<Block>, n: nat)
    requires WellFormed(inst) && Sized(inst, m) && n <= inst.passes
    ensures SequentialTraces(inst, StartArena(inst, h0, m), n)
         == SequentialTraces(inst, StartArena(inst, h0, ZeroArena(inst)), n)
  {
    hide StartArena, Agree, SequentialFill;
    if n > 0 {
      OldContentsAreNotTraced(inst, h0, m, n - 1);
      StartsAgree(inst, h0, m, ZeroArena(inst));
      FillAgrees(inst, StartArena(inst, h0, m), StartArena(inst, h0, ZeroArena(inst)), 4 * n);
    }
  }

  /** The tag of a computation, from its inputs alone. */
  function HashOf(inst: Instance, hashed: seq<u8>, outLen: u32): (tag: seq<u8>)
    requires WellFormed(inst) && outLen >= 1
    ensures |tag| == outLen
  {
    TagOf(inst, FilledArena(inst, Digest(64, [], hashed)), outLen)
  }

  // ---------------------------------------------------------------------------
  // The number of threads does not matter
  // ---------------------------------------------------------------------------

  /** The same computation with another number of threads. */
  function WithThreads(inst: Instance, n: u32): (inst': Instance)
    ensures WellFormed(inst) && 1 <= n <= inst.lanes ==> WellFormed(inst')
  {
    inst.(threads := n)
  }

  lemma WriteIgnoresThreads(inst: Instance, n: u32, m: seq<Block>, pos: Position)
    requires WellFormed(inst) && 1 <= n <= inst.lanes && InRange(inst, pos) && Sized(inst, m)
    ensures WriteBlock(WithThreads(inst, n), m, pos) == WriteBlock(inst, m, pos)
  {
    hide IndexAlpha, AddressBlock;
    AddressIgnoresThreads(inst, n, pos, pos.index / 128 + 1);
    var inst' := WithThreads(inst, n);
    assert PseudoRand(inst', m, pos) == PseudoRand(inst, m, pos);
    var rand := PseudoRand(inst, m, pos);
    assert RefOffset(inst', pos, rand) == RefOffset(inst, pos, rand);
    hide PseudoRand, RefOffset;
  }

  lemma AddressIgnoresThreads(inst: Instance, n: u32, pos: Position, counter: u64)
    ensures AddressBlock(WithThreads(inst, n), pos, counter) == AddressBlock(inst, pos, counter)
  {
    assert AddressInput(WithThreads(inst, n), pos, counter) == AddressInput(inst, pos, counter);
  }

  lemma {:induction false} SegmentIgnoresThreads(inst: Instance, n: u32, m: seq<Block>, t: nat, lane: nat, k: nat)
    requires WellFormed(inst) && 1 <= n <= inst.lanes && Sized(inst, m)
    requires t < 4 * inst.passes && lane < inst.lanes && k <= inst.layout.segmentLength
    ensures SegmentFill(WithThreads(inst, n), m, t, lane, k) == SegmentFill(inst, m, t, lane, k)
  {
    hide WriteBlock;
    if k > StartIndex(t) {
      SegmentIgnoresThreads(inst, n, m, t, lane, k - 1);
      WriteIgnoresThreads(inst, n, SegmentFill(inst, m, t, lane, k - 1), PositionAt(inst, t, lane, k - 1));
    }
  }

  lemma {:induction false} SliceIgnoresThreads(inst: Instance, n: u32, m: seq<Block>, t: nat, k: nat)
    requires WellFormed(inst) && 1 <= n <= inst.lanes && Sized(inst, m) && t < 4 * inst.passes && k <= inst.lanes
    ensures SliceFill(WithThreads(inst, n), m, t, k) == SliceFill(inst, m, t, k)
  {
    hide SegmentFill;
    if k > 0 {
      SliceIgnoresThreads(inst, n, m, t, k - 1);
      SegmentIgnoresThreads(inst, n, SliceFill(inst, m, t, k - 1), t, k - 1, inst.layout.segmentLength);
    }
  }

  lemma {:induction false} FillIgnoresThreads(inst: Instance, n: u32, m: seq<Block>, k: nat)
    requires WellFormed(inst) && 1 <= n <= inst.lanes && Sized(inst, m) && k <= 4 * inst.passes
    ensures SequentialFill(WithThreads(inst, n), m, k) == SequentialFill(inst, m, k)
  {
    hide SliceFill;
    if k > 0 {
      FillIgnoresThreads(inst, n, m, k - 1);
      SliceIgnoresThreads(inst, n, SequentialFill(inst, m, k - 1), k - 1, inst.lanes);
    }
  }

  /** The tag does not depend on the number of threads: only the lanes do. */
  lemma TagIgnoresThreads(inst: Instance, n: u32, hashed: seq<u8>, outLen: u32)
    requires WellFormed(inst) && 1 <= n <= inst.lanes && outLen >= 1
    ensures HashOf(WithThreads(inst, n), hashed, outLen) == HashOf(inst, hashed, outLen)
  {
    hide SequentialFill, FirstBlocks, LastBlocks, HPrime, Digest;
    var h0 := Digest(64, [], hashed);
    FillIgnoresThreads(inst, n, StartArena(inst, h0, ZeroArena(inst)), 4 * inst.passes);
  }

  /** All that goes into a tag; the costs say how long it is. */
  datatype Job = Job(
    algorithm: Algorithm,
    version: Version,
    costs: Costs,
    pwd: seq<u8>,
    salt: seq<u8>,
    secret: seq<u8>,
    ad: seq<u8>,
    compress: (Block, Block) -> Block)

  function InstanceOf(j: Job): (inst: Instance)
    requires Valid(j.costs)
    ensures WellFormed(inst)
  {
    NewInstance(j.algorithm, j.version, j.costs, j.compress)
  }

  function PreHashOf(j: Job): seq<u8> {
    PreHashInput(j.algorithm, j.version, j.costs, j.pwd, j.salt, j.secret, j.ad)
  }

  /** The tag of a job: RFC 9106, section 3.2. */
  function JobTag(j: Job): (tag: seq<u8>)
    requires Valid(j.costs)
    ensures |tag| == j.costs.tagLen
  {
    HashOf(InstanceOf(j), PreHashOf(j), j.costs.tagLen)
  }

  /** The arena it ends with. */
  function JobArena(j: Job): (m: seq<Block>)
    requires Valid(j.costs)
    ensures |m| == MemoryLayout(j.costs).blocks
  {
    FilledArena(InstanceOf(j), Digest(64, [], PreHashOf(j)))
  }

  /** The memories a trace sees. */
  function JobTraces(j: Job): seq<seq<Block>>
    requires Valid(j.costs)
  {
    var inst := InstanceOf(j);
    SequentialTraces(inst, StartArena(inst, Digest(64, [], PreHashOf(j)), ZeroArena(inst)), inst.passes)
  }

  /** The threads a caller configures are no part of the tag. */
  lemma JobIgnoresThreads(j: Job, n: u32)
    requires Valid(j.costs) && Valid(j.costs.(threads := n))
    ensures JobTag(j.(costs := j.costs.(threads := n))) == JobTag(j)
  {
    hide HashOf, Prefixed, Le32;
    var j' := j.(costs := j.costs.(threads := n));
    assert InstanceOf(j') == WithThreads(InstanceOf(j), EffectiveThreads(j'.costs));
    TagIgnoresThreads(InstanceOf(j), EffectiveThreads(j'.costs), PreHashOf(j), j.costs.tagLen);
  }
}
