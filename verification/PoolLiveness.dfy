/**
 Termination of the worker pool: a measure that every step but a spin decreases, and no fair run that
 goes on for ever, with refused threads, unwinding helpers and an unwinding leader all allowed.
 */
module PoolLiveness {
  import opened Machine
  import opened Params
  import opened Indexing
  import opened Fill
  import opened SliceView
  import opened Pool
  import opened PoolInvariant
  import opened PoolControl
  import opened PoolKnowledge
  import opened PoolLeader
  import opened PoolViews
  import opened PoolSafety

  // ---------------------------------------------------------------------------
  // The measure
  // ---------------------------------------------------------------------------

  /** How far the leader is from the end of its slice, or of its program. */
  function LeaderRank(c: Config, pc: Pc): nat {
    match pc
    case Spawning(k) => if k <= Workers(c) then 100 + Workers(c) - k else 100
    case Charging => 99
    case Claiming(_) => 50
    case Filling(_, _, _) => 50
    case LoadingArrived(_) => 40
    case LoadingLost(_, _) => 40
    case CheckingLost(_) => 39
    case Tracing(_) => 38
    case ResettingLane(_) => 37
    case ResettingArrived(_) => 36
    case Publishing(_) => 35
    case Stopping => 34
    case BumpingStop => 33
    case Releasing(_) => 32
    case BumpingRelease(_) => 31
    case Joining(_) => 30
    case _ => 0
  }

  /** How many stages of how many slices a helper has before it. */
  function HelperRank(c: Config, pc: Pc): nat {
    match pc
    case Unborn => 6 * Slices(c) + 6
    case Claiming(t) => if t <= Slices(c) then 6 * (Slices(c) - t) + 5 else 5
    case Filling(t, _, _) => if t <= Slices(c) then 6 * (Slices(c) - t) + 5 else 5
    case Arriving(t) => if t <= Slices(c) then 6 * (Slices(c) - t) + 4 else 4
    case LoadingGeneration(t) => if t <= Slices(c) then 6 * (Slices(c) - t) + 3 else 3
    case LoadingStop(t) => if t <= Slices(c) then 6 * (Slices(c) - t) + 3 else 3
    case CheckingStop(t) => if t <= Slices(c) then 6 * (Slices(c) - t) + 2 else 2
    case Unwinding => 1
    case _ => 0
  }

  /** The blocks left of the segment a worker is filling, and its end. */
  function BlocksLeft(c: Config, pc: Pc): nat {
    if pc.Filling? && pc.index <= c.inst.layout.segmentLength then c.inst.layout.segmentLength - pc.index + 1 else 0
  }

  function HelperRanks(c: Config, threads: seq<Thread>, n: nat): nat
    requires n <= |threads|
  {
    if n <= 1 then 0 else HelperRanks(c, threads, n - 1) + HelperRank(c, threads[n - 1].pc)
  }

  function AllBlocksLeft(c: Config, threads: seq<Thread>, n: nat): nat
    requires n <= |threads|
  {
    if n == 0 then 0 else AllBlocksLeft(c, threads, n - 1) + BlocksLeft(c, threads[n - 1].pc)
  }

  function LanesLeft(c: Config, s: State): nat {
    if Newest(s.nextLane).value < c.inst.lanes then c.inst.lanes - Newest(s.nextLane).value else 0
  }

  /** The measure, most significant part first. */
  datatype Measure = Measure(slices: nat, leader: nat, helpers: nat, work: nat)

  function MeasureOf(c: Config, s: State): Measure {
    Measure(
      if s.epoch <= Slices(c) then Slices(c) - s.epoch else 0,
      if |s.threads| > 0 then LeaderRank(c, s.threads[0].pc) else 0,
      HelperRanks(c, s.threads, |s.threads|),
      Times(LanesLeft(c, s), c.inst.layout.segmentLength + 2) + AllBlocksLeft(c, s.threads, |s.threads|))
  }

  predicate Less(a: Measure, b: Measure) {
    || a.slices < b.slices
    || (a.slices == b.slices && a.leader < b.leader)
    || (a.slices == b.slices && a.leader == b.leader && a.helpers < b.helpers)
    || (a.slices == b.slices && a.leader == b.leader && a.helpers == b.helpers && a.work < b.work)
  }

  lemma {:induction false} HelperRanksUpdate(c: Config, threads: seq<Thread>, n: nat, i: nat, x: Thread)
    requires n <= |threads| && i < |threads|
    ensures HelperRanks(c, threads[i := x], n) + (if 1 <= i < n then HelperRank(c, threads[i].pc) else 0)
         == HelperRanks(c, threads, n) + (if 1 <= i < n then HelperRank(c, x.pc) else 0)
  {
    hide HelperRank;
    if n > 1 {
      HelperRanksUpdate(c, threads, n - 1, i, x);
    }
  }

  lemma {:induction false} AllBlocksLeftUpdate(c: Config, threads: seq<Thread>, n: nat, i: nat, x: Thread)
    requires n <= |threads| && i < |threads|
    ensures AllBlocksLeft(c, threads[i := x], n) + (if i < n then BlocksLeft(c, threads[i].pc) else 0)
         == AllBlocksLeft(c, threads, n) + (if i < n then BlocksLeft(c, x.pc) else 0)
  {
    hide BlocksLeft;
    if n > 0 {
      AllBlocksLeftUpdate(c, threads, n - 1, i, x);
    }
  }

  // ---------------------------------------------------------------------------
  // Spins
  // ---------------------------------------------------------------------------

  /** One turn of a wait loop that found nothing. */
  predicate Spinning(pc: Pc, pc': Pc) {
    || (pc.LoadingGeneration? && pc' == LoadingStop(pc.t))
    || (pc.LoadingStop? && pc' == LoadingGeneration(pc.t))
    || (pc.LoadingArrived? && pc'.LoadingLost? && pc'.t == pc.t)
    || (pc.LoadingLost? && pc' == LoadingArrived(pc.t))
  }

  predicate IsSpin(c: Config, s: State, m: Move)
    requires Typed(c, s) && Enabled(c, s, m)
  {
    m.thread < |Next(c, s, m).threads| && Spinning(s.threads[m.thread].pc, Next(c, s, m).threads[m.thread].pc)
  }

  /** The step of one thread that moves no other, and stays in its slice. */
  predicate OneMoved(s: State, s': State, i: nat) {
    && i < |s.threads| && |s'.threads| == |s.threads|
    && s'.threads == s.threads[i := s'.threads[i]]
    && s'.epoch == s.epoch
  }

  lemma OneMovedLess(c: Config, s: State, s': State, i: nat)
    requires OneMoved(s, s', i)
    requires if i == 0 then LeaderRank(c, s'.threads[0].pc) < LeaderRank(c, s.threads[0].pc)
             else HelperRank(c, s'.threads[i].pc) < HelperRank(c, s.threads[i].pc)
    ensures Less(MeasureOf(c, s'), MeasureOf(c, s))
  {
    hide LeaderRank, HelperRank, HelperRanks, AllBlocksLeft, Times, LanesLeft;
    HelperRanksUpdate(c, s.threads, |s.threads|, i, s'.threads[i]);
  }

  lemma WorkLess(c: Config, s: State, s': State, i: nat)
    requires OneMoved(s, s', i)
    requires LeaderRank(c, s'.threads[i].pc) == LeaderRank(c, s.threads[i].pc)
    requires HelperRank(c, s'.threads[i].pc) == HelperRank(c, s.threads[i].pc)
    requires var left, left' := BlocksLeft(c, s.threads[i].pc), BlocksLeft(c, s'.threads[i].pc);
             || (LanesLeft(c, s') == LanesLeft(c, s) && left' < left)
             || (LanesLeft(c, s') + 1 == LanesLeft(c, s) && left' <= c.inst.layout.segmentLength + 1)
    ensures Less(MeasureOf(c, s'), MeasureOf(c, s))
  {
    hide LeaderRank, HelperRank, HelperRanks, AllBlocksLeft, LanesLeft, BlocksLeft;
    HelperRanksUpdate(c, s.threads, |s.threads|, i, s'.threads[i]);
    AllBlocksLeftUpdate(c, s.threads, |s.threads|, i, s'.threads[i]);
  }

  lemma ClaimDecreases(c: Config, s: State, i: nat, t: nat)
    requires Inv(c, s) && i < |s.threads| && s.threads[i].pc == Claiming(t)
    ensures Less(MeasureOf(c, StepClaim(c, s, i, t)), MeasureOf(c, s))
  {
    hide MeasureOf, Less, Shape, Memory, Knowledge, Record, Pcs, Spawns, Losses, Generations, Arrivals, Lanes, Claimed,
         Partition, Stages;
    ClaimHere(c, s, i, t);
    var s' := StepClaim(c, s, i, t);
    if s'.threads[i].pc.Filling? {
      assert s.threads[i].pc == Claiming(t) && s'.threads[i].pc == Filling(t, Newest(s.nextLane).value, StartIndex(t));
      ClaimRanks(c, t, Newest(s.nextLane).value);
      WorkLess(c, s, s', i);
    } else {
      OneMovedLess(c, s, s', i);
    }
  }

  lemma ClaimRanks(c: Config, t: nat, lane: nat)
    ensures LeaderRank(c, Claiming(t)) == LeaderRank(c, Filling(t, lane, StartIndex(t)))
    ensures HelperRank(c, Claiming(t)) == HelperRank(c, Filling(t, lane, StartIndex(t)))
    ensures BlocksLeft(c, Filling(t, lane, StartIndex(t))) <= c.inst.layout.segmentLength + 1
  {
  }

  lemma FillDecreases(c: Config, s: State, m: Move)
    requires Inv(c, s) && Typed(c, s) && Enabled(c, s, m) && s.threads[m.thread].pc.Filling?
    ensures Less(MeasureOf(c, Next(c, s, m)), MeasureOf(c, s))
  {
    hide MeasureOf, Less, Inv, WriteBlock, RefOffset, PseudoRand, WellFormed;
    var s', i := Next(c, s, m), m.thread;
    if m.fails {
      OneMovedLess(c, s, s', i);
    } else {
      WorkLess(c, s, s', i);
    }
  }

  /** The helper's steps at the barrier. */
  lemma HelperDecreases(c: Config, s: State, m: Move)
    requires Inv(c, s) && Typed(c, s) && Enabled(c, s, m) && !IsSpin(c, s, m) && m.thread > 0
    requires var pc := s.threads[m.thread].pc; !pc.Claiming? && !pc.Filling?
    ensures Less(MeasureOf(c, Next(c, s, m)), MeasureOf(c, s))
  {
    hide MeasureOf, Less, Inv, Stamp, WellFormed;
    WhoIsWhere(c, s, m.thread);
    HelperPlace(c, s, m.thread);
    OneMovedLess(c, s, Next(c, s, m), m.thread);
  }

  lemma HelperPlace(c: Config, s: State, i: nat)
    requires Inv(c, s) && 1 <= i < |s.threads|
    ensures HelperOk(c, s, s.threads[i].pc) && s.epoch <= Slices(c)
  {
    hide Memory, Knowledge, Record, Spawns, Losses, Generations, Arrivals, Lanes, Claimed, Partition, Stages;
  }

  lemma LeaderPlace(c: Config, s: State)
    requires Inv(c, s)
    ensures |s.threads| > 0 && LeaderOk(c, s) && s.epoch <= Slices(c)
    ensures !Left(LeaderPc(s)) ==> s.epoch < Slices(c)
  {
    hide Memory, Knowledge, Record, Spawns, Losses, Generations, Arrivals, Lanes, Claimed, Partition, Stages;
  }

  lemma SpawnDecreases(c: Config, s: State, m: Move)
    requires Inv(c, s) && Typed(c, s) && Enabled(c, s, m) && m.thread == 0 && s.threads[0].pc.Spawning?
    ensures Less(MeasureOf(c, Next(c, s, m)), MeasureOf(c, s))
  {
    hide Inv, HelperRanks, AllBlocksLeft, LanesLeft, Times, HelperRank;
    LeaderPlace(c, s);
  }

  lemma LeaderDecreases(c: Config, s: State, m: Move)
    requires Inv(c, s) && Typed(c, s) && Enabled(c, s, m) && !IsSpin(c, s, m) && m.thread == 0
    requires var pc := s.threads[0].pc; !pc.Claiming? && !pc.Filling? && !pc.Spawning?
    ensures Less(MeasureOf(c, Next(c, s, m)), MeasureOf(c, s))
  {
    hide Inv, HelperRanks, AllBlocksLeft, LanesLeft, Times, HelperRank, Stamp, WrapAdd, JoinAll, SomeoneLost,
         WellFormed;
    WhoIsWhere(c, s, 0);
    LeaderPlace(c, s);
    var s' := Next(c, s, m);
    if s.threads[0].pc.Publishing? {
      assert s'.epoch == s.epoch + 1;
    } else {
      hide Less, MeasureOf;
      OneMovedLess(c, s, s', 0);
    }
  }

  /** Every step that is not a spin decreases the measure. */
  lemma ProgressDecreases(c: Config, s: State, m: Move)
    requires Inv(c, s) && Typed(c, s) && Enabled(c, s, m) && !IsSpin(c, s, m)
    ensures Less(MeasureOf(c, Next(c, s, m)), MeasureOf(c, s))
  {
    hide Inv, MeasureOf, Less, IsSpin;
    var pc := s.threads[m.thread].pc;
    if pc.Claiming? {
      ClaimDecreases(c, s, m.thread, pc.t);
    } else if pc.Filling? {
      FillDecreases(c, s, m);
    } else if m.thread > 0 {
      HelperDecreases(c, s, m);
    } else if pc.Spawning? {
      SpawnDecreases(c, s, m);
    } else {
      LeaderDecreases(c, s, m);
    }
  }

  /** Nothing the threads share, and no place but the spinner's own. */
  predicate SameShared(s: State, s': State) {
    && s'.mem == s.mem && s'.nextLane == s.nextLane && s'.arrived == s.arrived && s'.generation == s.generation
    && s'.lost == s.lost && s'.stop == s.stop && s'.epoch == s.epoch && s'.arrivedBase == s.arrivedBase
    && |s'.threads| == |s.threads|
  }

  /** A spin changes nothing but where the spinner is and what it has seen, and keeps the measure. */
  lemma SpinChangesNothing(c: Config, s: State, m: Move)
    requires Typed(c, s) && Enabled(c, s, m) && IsSpin(c, s, m)
    ensures var s' := Next(c, s, m);
            && SameShared(s, s')
            && s'.threads == s.threads[m.thread := s'.threads[m.thread]]
            && Spinning(s.threads[m.thread].pc, s'.threads[m.thread].pc)
            && MeasureOf(c, s') == MeasureOf(c, s)
  {
    hide HelperRanks, AllBlocksLeft, Times, Stamp, WrapAdd, JoinAll, SomeoneLost, WellFormed;
    var s' := Next(c, s, m);
    var i := m.thread;
    assert s'.threads == s.threads[i := s'.threads[i]];
    HelperRanksUpdate(c, s.threads, |s.threads|, i, s'.threads[i]);
    AllBlocksLeftUpdate(c, s.threads, |s.threads|, i, s'.threads[i]);
    assert LanesLeft(c, s') == LanesLeft(c, s);
  }
}
