/** The tag of a pooled fill, and what its first pass reads. */
module PoolTag {
  import opened Machine
  import opened Params
  import opened Indexing
  import opened Fill
  import opened SliceView
  import opened LittleEndian
  import opened Pool
  import opened PoolInvariant
  import opened PoolSafety
  import opened PoolViews
  import opened PoolTheorems
  import Blake2Stream
  import Tag

  /** A pooled fill of a used arena ends with what a sequential fill of a fresh one ends with: the same tag. */
  lemma PooledTagIsSequential(c: Config, states: seq<State>, moves: seq<Move>, k: nat,
                              hashed: seq<u8>, m: seq<Block>, outLen: u32)
    requires IsRun(c, states, moves) && k < |states|
    requires |states[k].threads| > 0 && LeaderPc(states[k]).Returned?
    requires Sized(c.inst, m) && c.initial == Tag.StartArena(c.inst, Blake2Stream.Digest(64, [], hashed), m)
    requires outLen >= 1
    ensures states[k].mem == Tag.FilledArena(c.inst, Blake2Stream.Digest(64, [], hashed))
    ensures Tag.TagOf(c.inst, states[k].mem, outLen) == Tag.HashOf(c.inst, hashed, outLen)
  {
    hide Typed, Next, Initial, SequentialFill, SequentialTraces, WellFormed, Tag.StartArena, Tag.FilledArena, Tag.TagOf,
         Blake2Stream.Digest;
    ParallelEqualsSequential(c, states, moves, k);
    Tag.OldContentsDoNotMatter(c.inst, Blake2Stream.Digest(64, [], hashed), m);
  }

  /** The slice a column lies in. */
  function SliceOf(y: Layout, column: nat): (u: nat)
    requires Sound(y) && column < y.laneLength
    ensures u < 4 && SliceBase(y, u) <= column < SliceBase(y, u) + y.segmentLength
  {
    if column < y.segmentLength then 0
    else if column < 2 * y.segmentLength then 1
    else if column < 3 * y.segmentLength then 2
    else 3
  }

  /** Where a fill of the first pass reads: earlier in its own lane, or in an earlier slice. */
  lemma ReadsAreEarlier(c: Config, a: Access, x: nat)
    requires ValidConfig(c) && AccessOk(c, a) && RefersTo(c, a) && a.op.FillOp? && a.slice < 4
    requires x == PrevOffset(c.inst, PositionOf(c, a)) || x == a.op.reference
    ensures x < c.inst.layout.blocks
    ensures var r, col := LaneOf(c.inst.layout.laneLength, x), ColumnOf(c.inst.layout.laneLength, x);
            && r < c.inst.lanes && col < c.inst.layout.laneLength
            && col < SliceBase(c.inst.layout, a.slice) + if r == a.op.lane then a.op.index else 0
  {
    hide IndexAlpha, RefOffset, PrevOffset, CurrOffset;
    var pos := PositionOf(c, a);
    AccessFacts(c.inst, pos, 0);
    if x == a.op.reference {
      var rand: u64 :| a.op.reference == RefOffset(c.inst, PositionAt(c.inst, a.slice, a.op.lane, a.op.index), rand);
      AccessFacts(c.inst, pos, rand);
      var lane := RefLane(c.inst, pos, rand);
      IndexAlphaIsSafe(c.inst.layout, pos, rand % 0x1_0000_0000, lane == pos.lane);
    }
    CoordinatesFacts(c.inst, x);
  }

  /** A lane's earlier blocks of the same slice come earlier in the log, by the same thread. */
  lemma EarlierInLane(c: Config, s: State, k: nat, i: nat)
    requires Inv(c, s) && k < |s.log| && s.log[k].op.FillOp? && StartIndex(s.log[k].slice) <= i < s.log[k].op.index
    ensures exists j :: 0 <= j < k && IsFill(s.log[j], s.log[k].slice, s.log[k].op.lane, i) && j in s.log[k].before
  {
    hide Control, Memory, Knowledge, WellFormed, RefersTo;
    ShapeOf(c, s);
    var a := s.log[k];
    assert AccessOk(c, a) && a.slice <= s.epoch;
    assert Logged(s.log, a.slice, a.op.lane, i);
    var j :| 0 <= j < |s.log| && IsFill(s.log[j], a.slice, a.op.lane, i);
    assert SamePlace(s.log[j], a) && SamePlace(a, s.log[j]);
    assert j < k;
  }

  /** A fill at the coordinates of an offset writes that offset. */
  lemma FillWrites(c: Config, a: Access, x: nat)
    requires ValidConfig(c) && AccessOk(c, a) && a.op.FillOp? && a.slice < 4 && x < c.inst.layout.blocks
    requires LaneOf(c.inst.layout.laneLength, x) == a.op.lane
    requires ColumnOf(c.inst.layout.laneLength, x) == SliceBase(c.inst.layout, a.slice) + a.op.index
    ensures Writes(c, a, x)
  {
    CoordinatesFacts(c.inst, x);
  }

  lemma LogFacts(c: Config, s: State, k: nat)
    requires Inv(c, s) && k < |s.log|
    ensures ValidConfig(c) && AccessOk(c, s.log[k]) && RefersTo(c, s.log[k])
  {
    hide Control, Memory, Knowledge, WellFormed, RefersTo, Ordered, Complete;
    ShapeOf(c, s);
  }

  /**
   In the first pass, in the pooled schedule, every block a fill reads is one of the first two of its
   lane or was written by a fill that happened before: nothing of an earlier hash is ever read.
   */
  lemma FirstPassReadsOwnWrites(c: Config, states: seq<State>, moves: seq<Move>, n: nat, k: nat, x: nat)
    requires IsRun(c, states, moves) && n < |states| && k < |states[n].log|
    requires states[n].log[k].slice < 4 && states[n].log[k].op.FillOp?
    ensures AccessOk(c, states[n].log[k])
    ensures x == PrevOffset(c.inst, PositionOf(c, states[n].log[k])) || x == states[n].log[k].op.reference ==>
      ColumnOf(c.inst.layout.laneLength, x) < 2 || WrittenBefore(c, states[n].log, k, x)
  {
    hide Inv, Typed, Next, Initial, IsRun, IndexAlpha, RefOffset, PrevOffset, LaneOf, ColumnOf, Writes, RefersTo;
    Reachable(c, states, moves, n);
    LogFacts(c, states[n], k);
    var s := states[n];
    var a := s.log[k];
    if (x == PrevOffset(c.inst, PositionOf(c, a)) || x == a.op.reference)
      && ColumnOf(c.inst.layout.laneLength, x) >= 2 {
      ReadsAreEarlier(c, a, x);
      var r, col := LaneOf(c.inst.layout.laneLength, x), ColumnOf(c.inst.layout.laneLength, x);
      var u := SliceOf(c.inst.layout, col);
      var i := col - SliceBase(c.inst.layout, u);
      SlicesGrow(c.inst.layout, u, a.slice);
      if u < a.slice {
        SlicesInOrder(c, states, moves, n, k, u, r, i);
      } else {
        EarlierInLane(c, s, k, i);
      }
      var j :| 0 <= j < k && IsFill(s.log[j], u, r, i) && j in a.before;
      LogFacts(c, s, j);
      FillWrites(c, s.log[j], x);
    }
  }

  ghost predicate WrittenBefore(c: Config, log: seq<Access>, k: nat, x: nat)
    requires ValidConfig(c) && k < |log|
  {
    exists j :: 0 <= j < k && AccessOk(c, log[j]) && Writes(c, log[j], x) && j in log[k].before
  }

  lemma SlicesGrow(y: Layout, u: nat, t: nat)
    requires Sound(y) && u < 4 && t < 4
    ensures u > t ==> SliceBase(y, u) >= SliceBase(y, t) + y.segmentLength
  {
  }
}
