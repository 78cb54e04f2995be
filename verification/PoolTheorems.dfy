/** What the worker pool promises, over every run: the prose argument of the source, as theorems. */
module PoolTheorems {
  import opened Machine
  import opened Params
  import opened Indexing
  import opened Fill
  import opened SliceView
  import opened Pool
  import opened PoolInvariant
  import opened PoolControl
  import opened PoolKnowledge
  import opened PoolLeader
  import opened PoolMemory
  import opened PoolViews
  import opened PoolSafety

  // ---------------------------------------------------------------------------
  // Parallel equals sequential
  // ---------------------------------------------------------------------------

  lemma ReturnedFacts(c: Config, s: State)
    requires Inv(c, s) && LeaderPc(s).Returned?
    ensures ValidConfig(c) && s.epoch == Slices(c) && s.epoch / 4 == c.inst.passes
    ensures MemoryAt(c, s.epoch, s.progress, s.mem) && TracesAt(c, s.epoch / 4, s.traces)
    ensures forall i :: 1 <= i < |s.threads| ==> s.threads[i].pc.Done? || s.threads[i].pc.Refused?
    ensures s.claims == ClaimsTo(c.inst.lanes, Slices(c) - 1, c.inst.lanes)
  {
    hide Spawns, Losses, Generations, Arrivals, Lanes, Partition, Stages, MemoryAt, TracesAt, Knowledge, Record;
  }

  /**
   A fill that returns normally leaves exactly the memory of the sequential loops, its trace callbacks
   saw exactly the sequential ends of pass, and no helper was lost: whatever the interleaving, the
   number of threads, and the threads that were refused.
   */
  lemma ParallelEqualsSequential(c: Config, states: seq<State>, moves: seq<Move>, k: nat)
    requires IsRun(c, states, moves) && k < |states|
    requires |states[k].threads| > 0 && LeaderPc(states[k]).Returned?
    ensures states[k].mem == SequentialFill(c.inst, c.initial, 4 * c.inst.passes)
    ensures states[k].traces == if c.traced then SequentialTraces(c.inst, c.initial, c.inst.passes) else []
    ensures forall i :: 1 <= i < |states[k].threads| ==>
      states[k].threads[i].pc.Done? || states[k].threads[i].pc.Refused?
  {
    hide Inv, Typed, Next, Initial, SequentialFill, SequentialTraces, WellFormed;
    Reachable(c, states, moves, k);
    ReturnedFacts(c, states[k]);
  }

  lemma {:induction false} TracesPrefix(inst: Instance, m: seq<Block>, n: nat, k: nat)
    requires WellFormed(inst) && Sized(inst, m) && k <= n <= inst.passes
    ensures SequentialTraces(inst, m, k) <= SequentialTraces(inst, m, n)
  {
    hide SequentialFill, WellFormed;
    if k < n {
      TracesPrefix(inst, m, n - 1, k);
    }
  }

  /** Even in a run that is cut short, every trace callback sees the sequential end of its pass. */
  lemma EveryTraceIsSequential(c: Config, states: seq<State>, moves: seq<Move>, k: nat)
    requires IsRun(c, states, moves) && k < |states|
    ensures states[k].traces <= SequentialTraces(c.inst, c.initial, c.inst.passes)
  {
    hide Typed, Next, Initial, SequentialFill, SequentialTraces, WellFormed, Control, Knowledge, Record, MemoryAt;
    Reachable(c, states, moves, k);
    var s := states[k];
    ShapeOf(c, s);
    assert TracesAt(c, PassesTraced(s), s.traces);
    TracesPrefix(c.inst, c.initial, c.inst.passes, PassesTraced(s));
  }

  // ---------------------------------------------------------------------------
  // Exactly once
  // ---------------------------------------------------------------------------

  lemma {:induction false} ClaimsGrow(lanes: nat, t: nat, n: nat, t': nat, n': nat)
    requires n <= lanes && n' <= lanes && (t < t' || (t == t' && n <= n'))
    ensures ClaimsTo(lanes, t, n) <= ClaimsTo(lanes, t', n')
    decreases t' - t, n' - n
  {
    if t == t' {
      assert SliceClaims(t, n) <= SliceClaims(t, n');
    } else {
      ClaimsGrow(lanes, t, n, t' - 1, lanes);
    }
  }

  lemma ClaimFacts(c: Config, s: State)
    requires Inv(c, s)
    ensures |s.threads| > 0 && 0 < Slices(c) && 0 < c.inst.lanes && s.epoch <= Slices(c)
    ensures HandedOut(c, s) <= c.inst.lanes
    ensures s.claims == if s.epoch < Slices(c) then ClaimsTo(c.inst.lanes, s.epoch, HandedOut(c, s))
                        else ClaimsTo(c.inst.lanes, Slices(c) - 1, c.inst.lanes)
  {
    hide Pcs, Spawns, Losses, Generations, Arrivals, Lanes, Partition, Stages, Memory, Knowledge, Record, ClaimsTo;
  }

  /**
   Lanes are claimed in the order of the sequential loops, each lane of each slice once, although the
   counter overshoots and is reset; a normal return has claimed them all.
   */
  lemma ClaimsAreSequential(c: Config, states: seq<State>, moves: seq<Move>, k: nat)
    requires IsRun(c, states, moves) && k < |states|
    ensures 0 < Slices(c)
    ensures states[k].claims <= ClaimsTo(c.inst.lanes, Slices(c) - 1, c.inst.lanes)
    ensures |states[k].threads| > 0 && LeaderPc(states[k]).Returned? ==>
              states[k].claims == ClaimsTo(c.inst.lanes, Slices(c) - 1, c.inst.lanes)
  {
    hide Inv, Typed, Next, Initial, WellFormed, ClaimsTo, HandedOut;
    Reachable(c, states, moves, k);
    var s := states[k];
    ClaimFacts(c, s);
    if |s.threads| > 0 && LeaderPc(s).Returned? {
      ReturnedFacts(c, s);
    }
    if s.epoch < Slices(c) {
      ClaimsGrow(c.inst.lanes, s.epoch, HandedOut(c, s), Slices(c) - 1, c.inst.lanes);
    }
  }

  /** The sequence of claims holds each pair of slice and lane, at the place of the loops. */
  lemma {:induction false} ClaimAt(lanes: nat, t: nat, n: nat, u: nat, lane: nat)
    requires u <= t && lane < (if u == t then n else lanes)
    ensures |ClaimsTo(lanes, t, n)| == Times(t, lanes) + n
    ensures Times(u, lanes) + lane < |ClaimsTo(lanes, t, n)|
    ensures ClaimsTo(lanes, t, n)[Times(u, lanes) + lane] == Claim(u, lane)
  {
    if t > 0 {
      ClaimsLength(lanes, t - 1, lanes);
      if u < t {
        ClaimAt(lanes, t - 1, lanes, u, lane);
      }
    }
  }

  lemma {:induction false} ClaimsLength(lanes: nat, t: nat, n: nat)
    ensures |ClaimsTo(lanes, t, n)| == Times(t, lanes) + n
  {
    if t > 0 {
      ClaimsLength(lanes, t - 1, lanes);
    }
  }

  /** No block is filled twice, and at a normal return every block of every slice has been. */
  lemma EachBlockOnce(c: Config, states: seq<State>, moves: seq<Move>, n: nat)
    requires IsRun(c, states, moves) && n < |states|
    ensures var log := states[n].log;
            forall j, k :: 0 <= j < k < |log| && log[j].op.FillOp? && log[k].op.FillOp? ==>
              (log[j].slice, log[j].op.lane, log[j].op.index) != (log[k].slice, log[k].op.lane, log[k].op.index)
    ensures |states[n].threads| > 0 && LeaderPc(states[n]).Returned? ==>
              forall t, l, i :: 0 <= t < Slices(c) && 0 <= l < c.inst.lanes
                && StartIndex(t) <= i < c.inst.layout.segmentLength
                ==> Logged(states[n].log, t, l, i)
  {
    hide Control, Memory, Knowledge, Entries, Typed, Next, Initial, WellFormed, Logged;
    Reachable(c, states, moves, n);
    var s := states[n];
    assert forall j, k :: 0 <= j < k < |s.log| && SamePlace(s.log[j], s.log[k]) ==>
      s.log[j].op.index < s.log[k].op.index;
    if |s.threads| > 0 && LeaderPc(s).Returned? {
      ReturnedFacts(c, s);
    }
  }

  // ---------------------------------------------------------------------------
  // Slices in order
  // ---------------------------------------------------------------------------

  /**
   No access of a slice is made before every block of the slices before it has been filled; and each
   of those fills happened before it, by the acquire and release orderings alone.
   */
  lemma SlicesInOrder(c: Config, states: seq<State>, moves: seq<Move>, n: nat, k: nat, t: nat, lane: nat, i: nat)
    requires IsRun(c, states, moves) && n < |states| && k < |states[n].log|
    requires t < states[n].log[k].slice && lane < c.inst.lanes && StartIndex(t) <= i < c.inst.layout.segmentLength
    ensures exists j :: 0 <= j < k && IsFill(states[n].log[j], t, lane, i) && j in states[n].log[k].before
  {
    hide Control, Memory, Knowledge, Typed, Next, Initial, WellFormed, RefersTo;
    Reachable(c, states, moves, n);
    var s := states[n];
    ShapeOf(c, s);
    assert s.log[k].slice <= s.epoch;
    assert Logged(s.log, t, lane, i);
    var j :| 0 <= j < |s.log| && IsFill(s.log[j], t, lane, i);
    assert j < k;
  }

  // ---------------------------------------------------------------------------
  // Race freedom
  // ---------------------------------------------------------------------------

  /** The position an access filled. */
  function PositionOf(c: Config, a: Access): Position
    requires ValidConfig(c) && AccessOk(c, a) && a.op.FillOp?
  {
    PositionAt(c.inst, a.slice, a.op.lane, a.op.index)
  }

  predicate Writes(c: Config, a: Access, x: nat)
    requires ValidConfig(c) && AccessOk(c, a)
  {
    a.op.FillOp? && x == CurrOffset(c.inst, PositionOf(c, a))
  }

  /** A fill reads the block before, the reference, and the old block when it is added to. */
  predicate Reads(c: Config, a: Access, x: nat)
    requires ValidConfig(c) && AccessOk(c, a)
  {
    match a.op
    case TraceOp => x < c.inst.layout.blocks
    case FillOp(_, _, reference) =>
      || x == PrevOffset(c.inst, PositionOf(c, a))
      || x == reference
      || x == CurrOffset(c.inst, PositionOf(c, a))
  }

  /** Two accesses to one block, at least one of them a write. */
  predicate ConflictAt(c: Config, a: Access, b: Access, x: nat)
    requires ValidConfig(c) && AccessOk(c, a) && AccessOk(c, b)
  {
    (Writes(c, a, x) && (Writes(c, b, x) || Reads(c, b, x))) || (Reads(c, a, x) && Writes(c, b, x))
  }

  lemma WriteIsLive(c: Config, a: Access)
    requires ValidConfig(c) && AccessOk(c, a) && a.op.FillOp?
    ensures var x := CurrOffset(c.inst, PositionOf(c, a));
            && LaneOf(c.inst.layout.laneLength, x) == a.op.lane
            && InSegment(c.inst, a.slice, a.op.lane, c.inst.layout.segmentLength, x)
  {
    AccessFacts(c.inst, PositionOf(c, a), 0);
  }

  /** What a fill touches is in its own lane, or outside every live segment. */
  lemma AccessIsApart(c: Config, a: Access, x: nat, lane: nat)
    requires ValidConfig(c) && AccessOk(c, a) && RefersTo(c, a) && a.op.FillOp?
    requires Reads(c, a, x) && lane == LaneOf(c.inst.layout.laneLength, x)
    ensures lane == a.op.lane || !InSegment(c.inst, a.slice, lane, c.inst.layout.segmentLength, x)
  {
    hide WellFormed, IndexAlpha, InSegment, RefOffset, CurrOffset, PrevOffset;
    var pos := PositionOf(c, a);
    AccessFacts(c.inst, pos, 0);
    if x == a.op.reference {
      var rand: u64 :| a.op.reference == RefOffset(c.inst, PositionAt(c.inst, a.slice, a.op.lane, a.op.index), rand);
      ReferenceIsQuiet(c.inst, a.slice, a.op.lane, a.op.index, rand, c.inst.layout.segmentLength);
    }
  }

  /** Two fills of one slice in different lanes touch no block in common that either writes. */
  lemma LanesDoNotConflict(c: Config, a: Access, b: Access, x: nat)
    requires ValidConfig(c) && AccessOk(c, a) && AccessOk(c, b) && RefersTo(c, a) && RefersTo(c, b)
    requires a.op.FillOp? && b.op.FillOp? && a.slice == b.slice && a.op.lane != b.op.lane
    ensures !ConflictAt(c, a, b, x)
  {
    hide WellFormed, CurrOffset, PrevOffset, RefersTo, InSegment;
    WriteIsLive(c, a);
    WriteIsLive(c, b);
    if Writes(c, a, x) && Reads(c, b, x) {
      AccessIsApart(c, b, x, a.op.lane);
    }
    if Reads(c, a, x) && Writes(c, b, x) {
      AccessIsApart(c, a, x, b.op.lane);
    }
  }

  /** Of two conflicting accesses by different threads, in any run, the first happened before the second. */
  lemma NoDataRaces(c: Config, states: seq<State>, moves: seq<Move>, n: nat, j: nat, k: nat, x: nat)
    requires IsRun(c, states, moves) && n < |states|
    requires var log := states[n].log; j < k < |log| && log[j].thread != log[k].thread
    ensures var log := states[n].log;
            AccessOk(c, log[j]) && AccessOk(c, log[k]) && (ConflictAt(c, log[j], log[k], x) ==> j in log[k].before)
  {
    hide Control, Memory, Knowledge, Complete, Typed, Next, Initial, WellFormed, RefersTo, ConflictAt, AccessOk;
    Reachable(c, states, moves, n);
    var s := states[n];
    ShapeOf(c, s);
    var a, b := s.log[j], s.log[k];
    assert a.slice <= b.slice && !SamePlace(a, b);
    assert a.op.TraceOp? ==> a.slice < b.slice;
    assert a.slice < b.slice || b.op.TraceOp? ==> j in b.before;
    hide Ordered, Entries;
    if a.slice == b.slice && a.op.FillOp? && b.op.FillOp? && a.op.lane != b.op.lane {
      LanesDoNotConflict(c, a, b, x);
    }
  }

  // ---------------------------------------------------------------------------
  // The counters and the plain stores
  // ---------------------------------------------------------------------------

  /** No counter wraps: not the lane counter that overshoots, and not the sum the leader waits on. */
  lemma CountersDoNotWrap(c: Config, states: seq<State>, moves: seq<Move>, k: nat)
    requires IsRun(c, states, moves) && k < |states|
    ensures Newest(states[k].nextLane).value <= c.inst.lanes + Workers(c) < 0xFFFF_FFFF
    ensures |states[k].threads| > 0 && !Left(LeaderPc(states[k])) ==>
              Newest(states[k].arrived).value + Newest(states[k].lost).value < 0xFFFF_FFFF
  {
    hide Inv, Typed, Next, Initial;
    Reachable(c, states, moves, k);
    CounterFacts(c, states[k]);
  }

  lemma CounterFacts(c: Config, s: State)
    requires Inv(c, s)
    ensures Newest(s.nextLane).value <= c.inst.lanes + Workers(c) < 0xFFFF_FFFF
    ensures |s.threads| > 0 && !Left(LeaderPc(s)) ==> Newest(s.arrived).value + Newest(s.lost).value < 0xFFFF_FFFF
  {
    hide Memory, Knowledge, Record, Pcs, Spawns, Generations, Claimed, Partition, Stages, WellFormed, Sized, Count;
    Basics(c);
    CountBound(s.threads, DrainedAt(s.epoch));
    CountBound(s.threads, ArrivedAt(s.epoch));
    CountBound(s.threads, Turned);
    CountBound(s.threads, Gone);
  }

  /**
   The leader's plain stores replace the newest message and nothing else could be meant: when it
   resets the counters it has seen every message of both, and no thread but it writes the generation
   or the stop flag.
   */
  lemma StoresAreLast(c: Config, states: seq<State>, moves: seq<Move>, k: nat)
    requires IsRun(c, states, moves) && k < |states| && |states[k].threads| > 0
    ensures var s := states[k]; var seen := s.threads[0].seen;
            && seen.generation == |s.generation| - 1
            && seen.stop == |s.stop| - 1
            && (LeaderPc(s).ResettingLane? ==> seen.lane == |s.nextLane| - 1)
            && (LeaderPc(s).ResettingArrived? ==> seen.arrived == |s.arrived| - 1)
  {
    hide Memory, Record, Typed, Next, Initial, Control, Knowledge;
    Reachable(c, states, moves, k);
    var s := states[k];
    LeaderFacts(c, s);
    if LeaderPc(s).ResettingLane? || LeaderPc(s).ResettingArrived? {
      CaughtUpSeesAll(c, s);
    }
  }

  /**
   The two loads of a released helper, with the second relaxed: if it was released by the bump that
   goes with the stop flag and not by a publication, it cannot miss the flag. And while the leader is
   in its loops no helper sees it at all.
   */
  lemma StopIsNotMissed(c: Config, states: seq<State>, moves: seq<Move>, k: nat, i: nat)
    requires IsRun(c, states, moves) && k < |moves| && 1 <= i < |states[k].threads| && moves[k].thread == i
    requires states[k].threads[i].pc.CheckingStop?
    ensures var t, pc' := states[k].threads[i].pc.t, states[k + 1].threads[i].pc;
            && (t + 1 != states[k].epoch ==> pc'.Done?)
            && (!Left(LeaderPc(states[k])) ==> pc' == Claiming(t + 1))
  {
    hide Inv, Typed, Initial;
    Reachable(c, states, moves, k);
    CheckStopOutcome(c, states[k], moves[k], i);
  }

  lemma CheckStopOutcome(c: Config, s: State, m: Move, i: nat)
    requires Inv(c, s) && Typed(c, s) && Enabled(c, s, m) && m.thread == i && 1 <= i < |s.threads|
    requires s.threads[i].pc.CheckingStop?
    ensures var t, pc' := s.threads[i].pc.t, Next(c, s, m).threads[i].pc;
            && (t + 1 != s.epoch ==> pc'.Done?)
            && (!Left(LeaderPc(s)) ==> pc' == Claiming(t + 1))
  {
    hide Memory, Record, Pcs, Spawns, Losses, Generations, Arrivals, Lanes, Claimed, Partition, Stages, Knowledge,
         Shape;
    CheckStopHere(c, s, i, s.threads[i].pc.t, m.read);
  }
}
