/**
 The memory in the middle of a slice, as a function of how far each lane has got. Whatever order the
 lanes advance in, block by block, the memory is the view at their progress.
 */
module SliceView {
  import opened Machine
  import opened Params
  import opened Indexing
  import opened Fill

  /** How many blocks of its segment each lane has done. */
  type Progress = seq<nat>

  ghost predicate ValidProgress(inst: Instance, t: nat, progress: Progress) {
    && |progress| == inst.lanes
    && forall l | 0 <= l < |progress| :: StartIndex(t) <= progress[l] <= inst.layout.segmentLength
  }

  function NoProgress(inst: Instance, t: nat): Progress { seq(inst.lanes, l => StartIndex(t)) }

  function FullProgress(inst: Instance): Progress { seq(inst.lanes, l => inst.layout.segmentLength) }

  /** A block of the view is what its own lane, filling alone, would have put there. */
  ghost function ViewAt(inst: Instance, m0: seq<Block>, t: nat, progress: Progress, a: nat): Block
    requires WellFormed(inst) && Sized(inst, m0) && t < 4 * inst.passes && ValidProgress(inst, t, progress)
    requires a < |m0|
  {
    CoordinatesFacts(inst, a);
    var lane := LaneOf(inst.layout.laneLength, a);
    SegmentFill(inst, m0, t, lane, progress[lane])[a]
  }

  ghost function View(inst: Instance, m0: seq<Block>, t: nat, progress: Progress): (m: seq<Block>)
    requires WellFormed(inst) && Sized(inst, m0) && t < 4 * inst.passes && ValidProgress(inst, t, progress)
    ensures Sized(inst, m)
  {
    seq(|m0|, a requires 0 <= a < |m0| => ViewAt(inst, m0, t, progress, a))
  }

  /** The blocks `lane` writes in slice `t` before block `k`. */
  predicate InSegment(inst: Instance, t: nat, lane: nat, k: nat, a: nat)
    requires WellFormed(inst)
  {
    var n, base := inst.layout.laneLength, SliceBase(inst.layout, t % 4);
    LaneOf(n, a) == lane && base + StartIndex(t) <= ColumnOf(n, a) < base + k
  }

  /** Filling a segment touches only that segment. */
  lemma {:induction false} SegmentFrame(inst: Instance, m: seq<Block>, t: nat, lane: nat, k: nat, a: nat)
    requires WellFormed(inst) && Sized(inst, m)
    requires t < 4 * inst.passes && lane < inst.lanes && k <= inst.layout.segmentLength
    requires a < |m| && !InSegment(inst, t, lane, k, a)
    ensures SegmentFill(inst, m, t, lane, k)[a] == m[a]
  {
    if k > StartIndex(t) {
      SegmentFrame(inst, m, t, lane, k - 1, a);
      var pos := PositionAt(inst, t, lane, k - 1);
      AccessFacts(inst, pos, 0);
      hide NewBlock, IndexAlpha;
    }
  }

  /** Two memories that agree where a position reads get the same block there. */
  lemma NewBlockDepends(inst: Instance, m1: seq<Block>, m2: seq<Block>, pos: Position)
    requires WellFormed(inst) && InRange(inst, pos) && Sized(inst, m1) && Sized(inst, m2)
    requires (AccessFacts(inst, pos, 0); m1[PrevOffset(inst, pos)] == m2[PrevOffset(inst, pos)])
    requires (AccessFacts(inst, pos, 0); WithXor(inst, pos.pass) ==>
      m1[CurrOffset(inst, pos)] == m2[CurrOffset(inst, pos)])
    requires (AccessFacts(inst, pos, PseudoRand(inst, m1, pos));
              m1[RefOffset(inst, pos, PseudoRand(inst, m1, pos))]
                == m2[RefOffset(inst, pos, PseudoRand(inst, m1, pos))])
    ensures PseudoRand(inst, m1, pos) == PseudoRand(inst, m2, pos)
    ensures NewBlock(inst, m1, pos) == NewBlock(inst, m2, pos)
  {
    hide IndexAlpha, WellFormed;
  }

  /** Where a reference lands: never in another lane's live segment. */
  lemma ReferenceIsQuiet(inst: Instance, t: nat, lane: nat, i: nat, rand: u64, k: nat)
    requires WellFormed(inst) && t < 4 * inst.passes && lane < inst.lanes
    requires StartIndex(t) <= i < inst.layout.segmentLength && k <= inst.layout.segmentLength
    ensures var pos := PositionAt(inst, t, lane, i); var a := RefOffset(inst, pos, rand);
            var r := LaneOf(inst.layout.laneLength, a);
            r != lane ==> !InSegment(inst, t, r, k, a)
  {
    var pos := PositionAt(inst, t, lane, i);
    AccessFacts(inst, pos, rand);
    var r := RefLane(inst, pos, rand);
    IndexAlphaIsSafe(inst.layout, pos, rand % 0x1_0000_0000, r == lane);
    hide IndexAlpha, WellFormed, RefOffset;
  }

  /** A lane's reference reads the same on the view as when it fills alone. */
  lemma ReferenceOnView(inst: Instance, m0: seq<Block>, t: nat, progress: Progress, lane: nat, rand: u64)
    requires WellFormed(inst) && Sized(inst, m0) && t < 4 * inst.passes && ValidProgress(inst, t, progress)
    requires lane < inst.lanes && progress[lane] < inst.layout.segmentLength
    ensures var pos := PositionAt(inst, t, lane, progress[lane]);
            (AccessFacts(inst, pos, rand);
             View(inst, m0, t, progress)[RefOffset(inst, pos, rand)]
             == SegmentFill(inst, m0, t, lane, progress[lane])[RefOffset(inst, pos, rand)])
  {
    var i := progress[lane];
    var pos := PositionAt(inst, t, lane, i);
    AccessFacts(inst, pos, rand);
    var a := RefOffset(inst, pos, rand);
    var r := LaneOf(inst.layout.laneLength, a);
    hide RefOffset, IndexAlpha;
    if r != lane {
      ReferenceIsQuiet(inst, t, lane, i, rand, i);
      ReferenceIsQuiet(inst, t, lane, i, rand, progress[r]);
      SegmentFrame(inst, m0, t, lane, i, a);
      SegmentFrame(inst, m0, t, r, progress[r], a);
    }
  }

  /** The block a lane writes next does not depend on how far the others have got. */
  lemma NewBlockOnView(inst: Instance, m0: seq<Block>, t: nat, progress: Progress, lane: nat)
    requires WellFormed(inst) && Sized(inst, m0) && t < 4 * inst.passes && ValidProgress(inst, t, progress)
    requires lane < inst.lanes && progress[lane] < inst.layout.segmentLength
    ensures NewBlock(inst, View(inst, m0, t, progress), PositionAt(inst, t, lane, progress[lane]))
         == NewBlock(inst, SegmentFill(inst, m0, t, lane, progress[lane]), PositionAt(inst, t, lane, progress[lane]))
  {
    var i := progress[lane];
    var pos := PositionAt(inst, t, lane, i);
    var alone := SegmentFill(inst, m0, t, lane, i);
    var rand := PseudoRand(inst, alone, pos);
    AccessFacts(inst, pos, rand);
    var a := RefOffset(inst, pos, rand);
    assert View(inst, m0, t, progress)[a] == alone[a] by {
      ReferenceOnView(inst, m0, t, progress, lane, rand);
    }
    assert View(inst, m0, t, progress)[PrevOffset(inst, pos)] == alone[PrevOffset(inst, pos)];
    assert View(inst, m0, t, progress)[CurrOffset(inst, pos)] == alone[CurrOffset(inst, pos)];
    hide *;
    NewBlockDepends(inst, alone, View(inst, m0, t, progress), pos);
  }

  lemma ViewStepAt(inst: Instance, m0: seq<Block>, t: nat, progress: Progress, lane: nat, a: nat)
    requires WellFormed(inst) && Sized(inst, m0) && t < 4 * inst.passes && ValidProgress(inst, t, progress)
    requires lane < inst.lanes && progress[lane] < inst.layout.segmentLength && a < |m0|
    ensures WriteBlock(inst, View(inst, m0, t, progress), PositionAt(inst, t, lane, progress[lane]))[a]
         == View(inst, m0, t, progress[lane := progress[lane] + 1])[a]
  {
    var i := progress[lane];
    var pos := PositionAt(inst, t, lane, i);
    assert InRange(inst, pos);
    hide NewBlock, WriteBlock, CurrOffset, WellFormed, IndexAlpha;
    var before := View(inst, m0, t, progress);
    var alone := SegmentFill(inst, m0, t, lane, i);
    NewBlockOnView(inst, m0, t, progress, lane);
    CoordinatesFacts(inst, a);
    AccessFacts(inst, pos, 0);
    WrittenAt(inst, before, pos, a);
    WrittenAt(inst, alone, pos, a);
    assert SegmentFill(inst, m0, t, lane, i + 1) == WriteBlock(inst, alone, pos);
  }

  lemma WrittenAt(inst: Instance, m: seq<Block>, pos: Position, a: nat)
    requires WellFormed(inst) && InRange(inst, pos) && Sized(inst, m) && a < |m|
    ensures WriteBlock(inst, m, pos)[a] == if a == CurrOffset(inst, pos) then NewBlock(inst, m, pos) else m[a]
  {
    hide NewBlock, IndexAlpha, WellFormed, CurrOffset;
  }

  /** One more block in any lane moves the view on by one in that lane. */
  lemma ViewStep(inst: Instance, m0: seq<Block>, t: nat, progress: Progress, lane: nat)
    requires WellFormed(inst) && Sized(inst, m0) && t < 4 * inst.passes && ValidProgress(inst, t, progress)
    requires lane < inst.lanes && progress[lane] < inst.layout.segmentLength
    ensures WriteBlock(inst, View(inst, m0, t, progress), PositionAt(inst, t, lane, progress[lane]))
         == View(inst, m0, t, progress[lane := progress[lane] + 1])
  {
    var pos := PositionAt(inst, t, lane, progress[lane]);
    var before, after := View(inst, m0, t, progress), View(inst, m0, t, progress[lane := progress[lane] + 1]);
    hide WriteBlock, View;
    forall a | 0 <= a < |m0|
      ensures WriteBlock(inst, before, pos)[a] == after[a]
    {
      ViewStepAt(inst, m0, t, progress, lane, a);
    }
  }

  /** No lane has started: the view is the memory the slice began with. */
  lemma ViewAtStart(inst: Instance, m0: seq<Block>, t: nat)
    requires WellFormed(inst) && Sized(inst, m0) && t < 4 * inst.passes
    ensures View(inst, m0, t, NoProgress(inst, t)) == m0
  {
    forall a | 0 <= a < |m0|
      ensures View(inst, m0, t, NoProgress(inst, t))[a] == m0[a]
    {
      CoordinatesFacts(inst, a);
    }
  }

  /** Filling one segment to block `k` on a view. */
  lemma {:induction false} SegmentOnView(inst: Instance, m0: seq<Block>, t: nat, progress: Progress, lane: nat, k: nat)
    requires WellFormed(inst) && Sized(inst, m0) && t < 4 * inst.passes && ValidProgress(inst, t, progress)
    requires lane < inst.lanes && progress[lane] == StartIndex(t) <= k <= inst.layout.segmentLength
    ensures SegmentFill(inst, View(inst, m0, t, progress), t, lane, k) == View(inst, m0, t, progress[lane := k])
  {
    if k == StartIndex(t) {
      assert progress[lane := k] == progress;
    } else {
      SegmentOnView(inst, m0, t, progress, lane, k - 1);
      ViewStep(inst, m0, t, progress[lane := k - 1], lane);
      assert progress[lane := k - 1][lane := k] == progress[lane := k];
      hide WriteBlock, View;
    }
  }

  function LaneProgress(inst: Instance, t: nat, n: nat, lane: int): nat {
    if lane < n then inst.layout.segmentLength else StartIndex(t)
  }

  /** The progress of the sequential loop after `n` lanes. */
  function SequentialProgress(inst: Instance, t: nat, n: nat): Progress {
    seq(inst.lanes, l => LaneProgress(inst, t, n, l))
  }

  lemma {:induction false} SliceIsView(inst: Instance, m0: seq<Block>, t: nat, n: nat)
    requires WellFormed(inst) && Sized(inst, m0) && t < 4 * inst.passes && n <= inst.lanes
    ensures ValidProgress(inst, t, SequentialProgress(inst, t, n))
    ensures SliceFill(inst, m0, t, n) == View(inst, m0, t, SequentialProgress(inst, t, n))
  {
    if n == 0 {
      ViewAtStart(inst, m0, t);
      assert SequentialProgress(inst, t, 0) == NoProgress(inst, t);
    } else {
      SliceIsView(inst, m0, t, n - 1);
      var before := SequentialProgress(inst, t, n - 1);
      var q := inst.layout.segmentLength;
      SegmentOnView(inst, m0, t, before, n - 1, q);
      assert before[n - 1 := q] == SequentialProgress(inst, t, n);
      hide View, SegmentFill;
    }
  }

  /** When every lane is done, in whatever order, the slice is the sequential one. */
  lemma ViewAtEnd(inst: Instance, m0: seq<Block>, t: nat)
    requires WellFormed(inst) && Sized(inst, m0) && t < 4 * inst.passes
    ensures ValidProgress(inst, t, FullProgress(inst))
    ensures View(inst, m0, t, FullProgress(inst)) == SliceFill(inst, m0, t, inst.lanes)
  {
    SliceIsView(inst, m0, t, inst.lanes);
    assert SequentialProgress(inst, t, inst.lanes) == FullProgress(inst);
  }
}
