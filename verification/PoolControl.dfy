/** Every step keeps the program counters, the counters and the division of lanes in order. */
module PoolControl {
  import opened Machine
  import opened Params
  import opened Indexing
  import opened Fill
  import opened SliceView
  import opened Pool
  import opened PoolInvariant

  /** One class's count moves with one thread. */
  predicate Moved(s: State, i: nat, x: Thread, k: Class)
    requires i < |s.threads|
  {
    Count(s.threads[i := x], k) + (if i == 0 then 0 else One(Belongs(s.threads[i].pc, k)))
    == Count(s.threads, k) + (if i == 0 then 0 else One(Belongs(x.pc, k)))
  }

  lemma CountsMove(s: State, i: nat, x: Thread, t: nat)
    requires i < |s.threads|
    ensures Moved(s, i, x, ArrivedAt(t)) && Moved(s, i, x, Turned) && Moved(s, i, x, Gone)
    ensures Moved(s, i, x, DrainedAt(t)) && Moved(s, i, x, Unwound)
  {
    CountUpdate(s.threads, ArrivedAt(t), i, x);
    CountUpdate(s.threads, Turned, i, x);
    CountUpdate(s.threads, Gone, i, x);
    CountUpdate(s.threads, DrainedAt(t), i, x);
    CountUpdate(s.threads, Unwound, i, x);
  }

  lemma Basics(c: Config)
    requires ValidConfig(c)
    ensures 2 <= c.inst.layout.segmentLength && 1 <= c.inst.lanes <= 0xFF_FFFF
    ensures 1 <= Workers(c) <= c.inst.lanes && Helpers(c) == Workers(c) - 1
  {
  }

  /** Lanes other workers fill stay busy. */
  lemma BusyElsewhere(s: State, s': State, i: nat)
    requires |s'.threads| == |s.threads| && i < |s.threads|
    requires forall k :: 0 <= k < |s.threads| && k != i && s.threads[k].pc.Filling? ==>
      s'.threads[k].pc == s.threads[k].pc
    ensures forall l :: Busy(s, l) && !Fills(s, i, l) ==> Busy(s', l)
    ensures forall l :: Busy(s, l) && Fills(s', i, l) ==> Busy(s', l)
  {
    forall l | Busy(s, l) && !Fills(s, i, l)
      ensures Busy(s', l)
    {
      var k :| 0 <= k < |s.threads| && Fills(s, k, l);
      assert Fills(s', k, l);
    }
  }

  /** Two program counters the control invariant does not tell apart. */
  predicate Similar(i: nat, t: nat, a: Pc, b: Pc) {
    && a.Filling? == b.Filling? == false
    && a.Unborn? == b.Unborn?
    && a.Done? == b.Done?
    && if i == 0 then
         && Left(a) == Left(b) && LeaderDrained(a) == LeaderDrained(b) && AfterReset(a) == AfterReset(b)
         && Charged(a) == Charged(b) && a.Publishing? == b.Publishing?
         && !a.Spawning? && !b.Spawning? && !Left(a)
       else
         && Waiting(a, t) == Waiting(b, t) && (a == Arriving(t)) == (b == Arriving(t))
         && a.Refused? == b.Refused? && a.Lost? == b.Lost? && a.Unwinding? == b.Unwinding?
  }

  lemma SimilarCounts(s: State, i: nat, x: Thread)
    requires i < |s.threads| && Similar(i, s.epoch, s.threads[i].pc, x.pc)
    ensures var ths := s.threads[i := x];
            && Count(ths, ArrivedAt(s.epoch)) == Count(s.threads, ArrivedAt(s.epoch))
            && Count(ths, Turned) == Count(s.threads, Turned)
            && Count(ths, Gone) == Count(s.threads, Gone)
            && Count(ths, DrainedAt(s.epoch)) == Count(s.threads, DrainedAt(s.epoch))
            && Count(ths, Unwound) == Count(s.threads, Unwound)
  {
    CountsMove(s, i, x, s.epoch);
  }

  lemma SimilarPartition(c: Config, s: State, i: nat, x: Thread)
    requires Shape(c, s) && Partition(c, s)
    requires i < |s.threads| && Similar(i, s.epoch, s.threads[i].pc, x.pc)
    ensures Partition(c, s.(threads := s.threads[i := x]))
  {
    SimilarCounts(s, i, x);
    var s' := s.(threads := s.threads[i := x]);
    hide Count;
    BusyElsewhere(s, s', i);
  }

  lemma SimilarPcs(c: Config, s: State, i: nat, x: Thread)
    requires Shape(c, s) && Pcs(c, s) && i < |s.threads| && Similar(i, s.epoch, s.threads[i].pc, x.pc)
    requires i == 0 ==> LeaderOk(c, s.(threads := s.threads[i := x]))
    requires i > 0 ==> HelperOk(c, s, x.pc)
    ensures Pcs(c, s.(threads := s.threads[i := x]))
  {
    hide Count, WellFormed, Sized;
    CountUpdate(s.threads, Gone, i, x);
    assert HelperOk(c, s, x.pc) == HelperOk(c, s.(threads := s.threads[i := x]), x.pc);
  }

  lemma SimilarRest(c: Config, s: State, i: nat, x: Thread)
    requires Shape(c, s) && Spawns(c, s) && Losses(c, s) && Arrivals(c, s) && Lanes(c, s)
    requires i < |s.threads| && Similar(i, s.epoch, s.threads[i].pc, x.pc)
    ensures var s' := s.(threads := s.threads[i := x]);
            Spawns(c, s') && Losses(c, s') && Arrivals(c, s') && Lanes(c, s')
  {
    hide Count, WellFormed, Sized;
    SimilarCounts(s, i, x);
  }

  /** A step that only moves one thread between similar places. */
  lemma SimilarMove(c: Config, s: State, i: nat, x: Thread)
    requires Control(c, s) && i < |s.threads| && Similar(i, s.epoch, s.threads[i].pc, x.pc)
    requires var s' := s.(threads := s.threads[i := x]); (i == 0 ==> LeaderOk(c, s')) && Stages(c, s')
    requires i > 0 ==> HelperOk(c, s, x.pc)
    ensures Control(c, s.(threads := s.threads[i := x]))
  {
    hide Count, Pcs, Spawns, Losses, Arrivals, Lanes, Partition, Stages, LeaderOk, HelperOk, WellFormed, Sized,
         ClaimsTo;
    SimilarPcs(c, s, i, x);
    SimilarRest(c, s, i, x);
    SimilarPartition(c, s, i, x);
  }

  /** The leader leaves the loops, early or not; nothing else changes. */
  lemma LeavingMove(c: Config, s: State, x: Thread)
    requires Control(c, s) && Left(x.pc) && !Left(LeaderPc(s)) && !AfterReset(LeaderPc(s)) && Charged(LeaderPc(s))
    requires LeaderOk(c, s.(threads := s.threads[0 := x]))
    ensures Control(c, s.(threads := s.threads[0 := x]))
  {
    hide Count, WellFormed, Sized;
    var s' := s.(threads := s.threads[0 := x]);
    CountsMove(s, 0, x, s.epoch);
    assert Partition(c, s') && Stages(c, s');
    hide Partition, Stages;
  }

  // ---------------------------------------------------------------------------
  // drain_lanes
  // ---------------------------------------------------------------------------

  lemma ClaimPartition(c: Config, s: State, i: nat, t: nat)
    requires Shape(c, s) && Partition(c, s) && !AfterReset(LeaderPc(s))
    requires i < |s.threads| && s.threads[i].pc == Claiming(t)
    requires Newest(s.nextLane).value < 0xFFFF_FFFF && t == s.epoch < Slices(c)
    requires Count(StepClaim(c, s, i, t).threads, Unwound) == Count(s.threads, Unwound)
    ensures Partition(c, StepClaim(c, s, i, t))
  {
    var s' := StepClaim(c, s, i, t);
    var n := Newest(s.nextLane).value;
    assert Newest(s'.nextLane).value == n + 1;
    assert !AfterReset(LeaderPc(s')) && (Left(LeaderPc(s')) <==> Left(LeaderPc(s)));
    hide Count;
    forall l | 0 <= l < c.inst.lanes && l < n + 1 && !Left(LeaderPc(s))
      ensures s.progress[l] == c.inst.layout.segmentLength || Busy(s', l) || Count(s.threads, Unwound) > 0
    {
      if l == n {
        assert Fills(s', i, l);
      } else if Busy(s, l) {
        var k :| 0 <= k < |s.threads| && Fills(s, k, l);
        assert Fills(s', k, l);
      }
    }
  }

  lemma ClaimClaimed(c: Config, s: State, i: nat, t: nat)
    requires Shape(c, s) && Claimed(c, s)
    requires i < |s.threads| && s.threads[i].pc == Claiming(t)
    requires Newest(s.nextLane).value < 0xFFFF_FFFF && t == s.epoch < Slices(c)
    requires !AfterReset(LeaderPc(s))
    ensures Claimed(c, StepClaim(c, s, i, t))
  {
    hide WellFormed, Sized, ValidProgress, Count;
    var s' := StepClaim(c, s, i, t);
    var n := Newest(s.nextLane).value;
    assert Newest(s'.nextLane).value == n + 1;
    if n < c.inst.lanes {
      assert SliceClaims(t, n + 1) == SliceClaims(t, n) + [Claim(t, n)];
    }
  }

  lemma ClaimHere(c: Config, s: State, i: nat, t: nat)
    requires Control(c, s) && i < |s.threads| && s.threads[i].pc == Claiming(t)
    ensures t == s.epoch < Slices(c) && !AfterReset(LeaderPc(s)) && !Quiet(LeaderPc(s)) && !LeaderPc(s).CheckingLost?
    ensures Newest(s.nextLane).value < 0xFFFF_FFFF
    ensures var s' := StepClaim(c, s, i, t);
            && Count(s'.threads, ArrivedAt(t)) == Count(s.threads, ArrivedAt(t))
            && Count(s'.threads, Turned) == Count(s.threads, Turned)
            && Count(s'.threads, Gone) == Count(s.threads, Gone)
            && Count(s'.threads, Unwound) == Count(s.threads, Unwound)
            && Count(s'.threads, DrainedAt(t)) == Count(s.threads, DrainedAt(t))
              + One(i > 0 && Newest(s.nextLane).value >= c.inst.lanes)
  {
    hide Partition, Claimed, Generations, Arrivals, Losses, Spawns, WellFormed, Sized, ValidProgress, Count, WrapAdd;
    var s' := StepClaim(c, s, i, t);
    Basics(c);
    CountsMove(s, i, s'.threads[i], s.epoch);
    assert s'.threads == s.threads[i := s'.threads[i]];
    CountBound(s.threads, DrainedAt(s.epoch));
    if i > 0 {
      assert HelperOk(c, s, s.threads[i].pc);
    }
  }

  lemma ClaimPcs(c: Config, s: State, i: nat, t: nat)
    requires Control(c, s) && i < |s.threads| && s.threads[i].pc == Claiming(t)
    ensures Pcs(c, StepClaim(c, s, i, t)) && Spawns(c, StepClaim(c, s, i, t))
  {
    hide WellFormed, Sized, Count, Claimed, Partition, ClaimsTo, Losses, Lanes, Arrivals, Generations;
    ClaimHere(c, s, i, t);
    Basics(c);
  }

  lemma ClaimLanes(c: Config, s: State, i: nat, t: nat)
    requires Shape(c, s) && Lanes(c, s) && i < |s.threads| && s.threads[i].pc == Claiming(t)
    requires t == s.epoch && !AfterReset(LeaderPc(s)) && Newest(s.nextLane).value < 0xFFFF_FFFF
    requires Count(StepClaim(c, s, i, t).threads, DrainedAt(t))
          == Count(s.threads, DrainedAt(t)) + One(i > 0 && Newest(s.nextLane).value >= c.inst.lanes)
    ensures Lanes(c, StepClaim(c, s, i, t))
  {
    hide WellFormed, Sized, ValidProgress, Count;
    assert Newest(StepClaim(c, s, i, t).nextLane).value == Newest(s.nextLane).value + 1;
  }

  lemma ClaimStages(c: Config, s: State, i: nat, t: nat)
    requires Shape(c, s) && Stages(c, s) && i < |s.threads| && s.threads[i].pc == Claiming(t)
    requires !Quiet(LeaderPc(s)) && !LeaderPc(s).CheckingLost?
    ensures Stages(c, StepClaim(c, s, i, t))
  {
    hide WellFormed, Sized, ValidProgress, AddRelaxed;
  }

  lemma ClaimRest(c: Config, s: State, i: nat, t: nat)
    requires Control(c, s) && i < |s.threads| && s.threads[i].pc == Claiming(t)
    ensures var s' := StepClaim(c, s, i, t); Arrivals(c, s') && Lanes(c, s') && Stages(c, s') && Generations(c, s')
  {
    ClaimHere(c, s, i, t);
    ClaimLanes(c, s, i, t);
    ClaimStages(c, s, i, t);
    hide WellFormed, Sized, ValidProgress, Count, Claimed, Partition, ClaimsTo, Spawns, Losses, Lanes, Stages,
         AddRelaxed, Pcs, Stamp;
  }

  lemma ClaimControl(c: Config, s: State, i: nat, t: nat)
    requires Control(c, s) && i < |s.threads| && s.threads[i].pc == Claiming(t)
    ensures Control(c, StepClaim(c, s, i, t))
  {
    hide WellFormed, Sized, Count, Claimed, Partition, ClaimsTo, Pcs, Spawns, Arrivals, Lanes, Stages, Generations;
    ClaimHere(c, s, i, t);
    ClaimPartition(c, s, i, t);
    ClaimClaimed(c, s, i, t);
    ClaimPcs(c, s, i, t);
    ClaimRest(c, s, i, t);
  }

  /** A worker in the middle of a lane: the leader is still waiting for it, or has left. */
  lemma FillHere(c: Config, s: State, i: nat)
    requires Control(c, s) && i < |s.threads| && s.threads[i].pc.Filling?
    ensures FillingOk(c, s, s.threads[i].pc)
    ensures !AfterReset(LeaderPc(s)) && !Quiet(LeaderPc(s)) && !LeaderPc(s).CheckingLost?
  {
    hide WellFormed, Sized, Count, Claimed, Partition, Spawns, Losses, Generations, Arrivals, Lanes;
    if i > 0 {
      assert HelperOk(c, s, s.threads[i].pc);
    }
  }

  /** What `StepFill` does to the control state: one more block of one lane. */
  predicate Advanced(s: State, s': State, i: nat, x: Thread, lane: nat)
    requires i < |s.threads| && lane < |s.progress|
  {
    && s'.threads == s.threads[i := x]
    && s'.progress == s.progress[lane := s.progress[lane] + 1]
    && s'.nextLane == s.nextLane && s'.arrived == s.arrived && s'.generation == s.generation
    && s'.lost == s.lost && s'.stop == s.stop && s'.spawned == s.spawned && s'.claims == s.claims
    && s'.epoch == s.epoch && s'.arrivedBase == s.arrivedBase && s'.base == s.base
  }

  lemma FillPartition(c: Config, s: State, s': State, i: nat, x: Thread, lane: nat)
    requires Shape(c, s) && Partition(c, s) && i < |s.threads| && lane < c.inst.lanes
    requires s.threads[i].pc.Filling? && s.threads[i].pc.lane == lane && FillingOk(c, s, s.threads[i].pc)
    requires x.pc == Filling(s.epoch, lane, s.threads[i].pc.index + 1)
    requires Advanced(s, s', i, x, lane)
    ensures Partition(c, s')
  {
    CountsMove(s, i, x, s.epoch);
    BusyElsewhere(s, s', i);
    hide Count;
    assert Fills(s', i, lane) && Busy(s', lane);
    forall l | 0 <= l < c.inst.lanes && l < Newest(s.nextLane).value && !Left(LeaderPc(s)) && !AfterReset(LeaderPc(s))
      ensures s'.progress[l] == c.inst.layout.segmentLength || Busy(s', l) || Count(s.threads, Unwound) > 0
    {
      assert l != lane ==> s'.progress[l] == s.progress[l] && !Fills(s, i, l);
    }
  }

  lemma FillRest(c: Config, s: State, s': State, i: nat, x: Thread, lane: nat)
    requires Control(c, s) && i < |s.threads| && lane < c.inst.lanes
    requires s.threads[i].pc.Filling? && s.threads[i].pc.lane == lane && FillingOk(c, s, s.threads[i].pc)
    requires s.threads[i].pc.index < c.inst.layout.segmentLength
    requires x.pc == Filling(s.epoch, lane, s.threads[i].pc.index + 1)
    requires Advanced(s, s', i, x, lane) && |s'.mem| == |s.mem| && |s'.log| >= |s.log|
    ensures Shape(c, s') && Pcs(c, s') && Spawns(c, s') && Losses(c, s') && Generations(c, s')
    ensures Arrivals(c, s') && Lanes(c, s') && Claimed(c, s') && Stages(c, s')
  {
    hide Count, WellFormed, ClaimsTo;
    FillHere(c, s, i);
    CountsMove(s, i, x, s.epoch);
    assert Shape(c, s') && Stages(c, s') by { hide Pcs, Spawns, Losses, Generations, Arrivals, Lanes, Claimed; }
    hide Partition, Shape, Stages;
    assert Pcs(c, s') && Spawns(c, s') by { hide Losses, Generations, Arrivals, Lanes, Claimed; }
    hide Pcs, Spawns;
  }

  lemma FillAdvances(c: Config, s: State, i: nat, t: nat, lane: nat, index: nat)
    requires Typed(c, s) && i < |s.threads| && s.threads[i].pc == Filling(t, lane, index)
    requires index < c.inst.layout.segmentLength && s.progress[lane] == index
    ensures var s' := StepFill(c, s, i, t, lane, index);
            && Advanced(s, s', i, s'.threads[i], lane) && s'.threads[i].pc == Filling(t, lane, index + 1)
            && |s'.mem| == |s.mem| && |s'.log| >= |s.log|
  {
    hide WriteBlock, PseudoRand, RefOffset, WellFormed;
  }

  lemma FillControl(c: Config, s: State, i: nat, t: nat, lane: nat, index: nat)
    requires Control(c, s) && Typed(c, s) && i < |s.threads|
    requires s.threads[i].pc == Filling(t, lane, index) && index < c.inst.layout.segmentLength
    ensures Control(c, StepFill(c, s, i, t, lane, index))
  {
    FillHere(c, s, i);
    assert s.progress[lane] == index by {
      hide Pcs, Spawns, Losses, Generations, Arrivals, Lanes, Claimed, Stages;
    }
    FillAdvances(c, s, i, t, lane, index);
    hide StepFill, Shape, Pcs, Spawns, Losses, Generations, Arrivals, Lanes, Claimed, Partition, Stages, WellFormed;
    var s' := StepFill(c, s, i, t, lane, index);
    FillPartition(c, s, s', i, s'.threads[i], lane);
    FillRest(c, s, s', i, s'.threads[i], lane);
  }

  lemma FillEndPartition(c: Config, s: State, i: nat, x: Thread)
    requires Shape(c, s) && Partition(c, s) && i < |s.threads| && s.threads[i].pc.Filling?
    requires (x.pc == Claiming(s.epoch) && s.threads[i].pc.index == c.inst.layout.segmentLength)
          || (i > 0 && x.pc == Unwinding)
    ensures Partition(c, s.(threads := s.threads[i := x]))
  {
    CountsMove(s, i, x, s.epoch);
    BusyElsewhere(s, s.(threads := s.threads[i := x]), i);
    hide Count;
  }

  /** Finishing a segment, or unwinding in the middle of one. */
  lemma FillEndControl(c: Config, s: State, i: nat, x: Thread)
    requires Control(c, s) && i < |s.threads| && s.threads[i].pc.Filling?
    requires (x.pc == Claiming(s.epoch) && s.threads[i].pc.index == c.inst.layout.segmentLength)
          || (i > 0 && x.pc == Unwinding)
    ensures Control(c, s.(threads := s.threads[i := x]))
  {
    hide Count, WellFormed, Sized, ClaimsTo, Partition;
    FillHere(c, s, i);
    FillEndPartition(c, s, i, x);
    var s' := s.(threads := s.threads[i := x]);
    CountsMove(s, i, x, s.epoch);
    assert Stages(c, s');
    assert Pcs(c, s') && Spawns(c, s');
  }

  // ---------------------------------------------------------------------------
  // The helper's side of the barrier
  // ---------------------------------------------------------------------------

  lemma WaitedPartition(c: Config, s: State, s': State, i: nat)
    requires Shape(c, s) && Partition(c, s) && 1 <= i < |s.threads| == |s'.threads|
    requires s'.threads == s.threads[i := s'.threads[i]] && s'.nextLane == s.nextLane && s'.progress == s.progress
    requires s'.epoch == s.epoch && !s.threads[i].pc.Filling? && !s'.threads[i].pc.Filling?
    requires Belongs(s.threads[i].pc, Unwound) == Belongs(s'.threads[i].pc, Unwound)
    ensures Partition(c, s')
  {
    CountUpdate(s.threads, Unwound, i, s'.threads[i]);
    BusyElsewhere(s, s', i);
    hide Count;
  }

  /** What an arrival or a bail leaves alone: all but the helper and one counter. */
  predicate OnlyHelper(s: State, s': State, i: nat, x: Thread)
    requires i < |s.threads|
  {
    s' == s.(threads := s.threads[i := x], arrived := s'.arrived, lost := s'.lost)
  }

  lemma ArriveStages(c: Config, s: State, s': State, i: nat, t: nat)
    requires Shape(c, s) && Pcs(c, s) && Stages(c, s) && 1 <= i < |s.threads| && s.threads[i].pc == Arriving(t)
    requires OnlyHelper(s, s', i, Thread(LoadingGeneration(t), s.threads[i].seen.(arrived := |s.arrived|)))
    requires s.arrivedBase < |s'.arrived|
    ensures Pcs(c, s') && Stages(c, s') && (Left(LeaderPc(s)) || (t == s.epoch && !LeaderPc(s).Publishing?))
  {
    hide Count, WellFormed, Sized;
    CountUpdate(s.threads, Gone, i, s'.threads[i]);
    assert HelperOk(c, s, s.threads[i].pc);
  }

  lemma ArriveCounts(c: Config, s: State, i: nat, t: nat)
    requires Shape(c, s) && Spawns(c, s) && Arrivals(c, s) && Lanes(c, s) && 1 <= i < |s.threads|
    requires s.threads[i].pc == Arriving(t) && (Left(LeaderPc(s)) || (t == s.epoch && !LeaderPc(s).Publishing?))
    ensures var s' := StepArrive(s, i, t); Spawns(c, s') && Arrivals(c, s') && Lanes(c, s')
  {
    hide WellFormed, Sized;
    var s' := StepArrive(s, i, t);
    assert s'.threads == s.threads[i := s'.threads[i]];
    CountsMove(s, i, s'.threads[i], s.epoch);
    CountBound(s.threads, ArrivedAt(s.epoch));
    Basics(c);
    hide Count;
  }

  lemma ArriveControl(c: Config, s: State, i: nat, t: nat)
    requires Control(c, s) && 1 <= i < |s.threads| && s.threads[i].pc == Arriving(t)
    ensures Control(c, StepArrive(s, i, t))
  {
    hide Count, WellFormed, Sized, ClaimsTo, Pcs, Stages, Spawns, Arrivals, Lanes, Partition;
    var s' := StepArrive(s, i, t);
    ArriveStages(c, s, s', i, t);
    ArriveCounts(c, s, i, t);
    WaitedPartition(c, s, s', i);
    CountUpdate(s.threads, Turned, i, s'.threads[i]);
    CountUpdate(s.threads, Gone, i, s'.threads[i]);
  }

  /** A helper that does not see the stop flag was released by the leader's publication. */
  lemma CheckStopHere(c: Config, s: State, i: nat, t: nat, read: nat)
    requires Control(c, s) && Knowledge(c, s)
    requires 1 <= i < |s.threads| && s.threads[i].pc == CheckingStop(t)
    requires s.threads[i].seen.stop <= read < |s.stop|
    ensures HelperOk(c, s, CheckingStop(t)) && s.stop[read].value <= 1
    ensures s.stop[read].value == 0 ==> t + 1 == s.epoch
    ensures s.stop[read].value != 0 || t + 1 == Slices(c) ==> Left(LeaderPc(s))
    ensures (!Quiet(LeaderPc(s)) && !LeaderPc(s).CheckingLost?) || t == s.epoch
  {
    hide Spawns, Losses, Arrivals, Lanes, Claimed, Partition, WellFormed, Sized, ValidProgress, Count, Stamp,
         AllBounded, Own, LeaderSeen, Published, SeesBase;
    CheckStopSeen(c, s, i);
    assert HelperOk(c, s, s.threads[i].pc);
    hide Knowledge;
  }

  lemma CheckStopSeen(c: Config, s: State, i: nat)
    requires Shape(c, s) && Knowledge(c, s) && 1 <= i < |s.threads|
    ensures HelperSeen(c, s, i)
  {
    hide Shape, AllBounded, Own, LeaderSeen, HelperSeen, Published;
  }

  /** Where a released helper goes, and what is known of the leader then. */
  predicate Released(c: Config, s: State, t: nat, pc: Pc)
    requires |s.threads| > 0
  {
    && (pc == Done || (pc == Claiming(t + 1) && t + 1 == s.epoch < Slices(c)))
    && (pc == Done ==> Left(LeaderPc(s)))
    && ((!Quiet(LeaderPc(s)) && !LeaderPc(s).CheckingLost?) || t == s.epoch)
  }

  lemma CheckStopStages(c: Config, s: State, i: nat, t: nat, x: Thread)
    requires Shape(c, s) && Pcs(c, s) && Stages(c, s) && 1 <= i < |s.threads|
    requires s.threads[i].pc == CheckingStop(t) && Released(c, s, t, x.pc)
    ensures var s' := s.(threads := s.threads[i := x]); Pcs(c, s') && Stages(c, s')
  {
    hide Count, WellFormed, Sized;
    CountUpdate(s.threads, Gone, i, x);
    assert HelperOk(c, s, s.threads[i].pc);
  }

  lemma CheckStopCounts(c: Config, s: State, i: nat, t: nat, x: Thread)
    requires Shape(c, s) && Spawns(c, s) && Losses(c, s) && Arrivals(c, s) && Lanes(c, s) && 1 <= i < |s.threads|
    requires s.threads[i].pc == CheckingStop(t) && Released(c, s, t, x.pc)
    requires HelperOk(c, s, CheckingStop(t))
    ensures var s' := s.(threads := s.threads[i := x]);
            Spawns(c, s') && Losses(c, s') && Arrivals(c, s') && Lanes(c, s')
  {
    hide Count, WellFormed, Sized;
    CountsMove(s, i, x, s.epoch);
  }

  lemma CheckStopControl(c: Config, s: State, i: nat, t: nat, read: nat)
    requires Control(c, s) && Knowledge(c, s)
    requires 1 <= i < |s.threads| && s.threads[i].pc == CheckingStop(t)
    requires s.threads[i].seen.stop <= read < |s.stop|
    ensures Control(c, StepCheckStop(c, s, i, t, read))
  {
    hide Knowledge, WellFormed, Sized, ClaimsTo, Count, Pcs, Stages, Spawns, Losses, Arrivals, Lanes, Partition,
         HelperOk;
    var s' := StepCheckStop(c, s, i, t, read);
    assert s' == s.(threads := s.threads[i := s'.threads[i]]);
    CheckStopHere(c, s, i, t, read);
    assert HelperOk(c, s, CheckingStop(t)) ==> t < Slices(c) by { CheckingIsOk(c, s, t); }
    WaitedPartition(c, s, s', i);
    CheckStopStages(c, s, i, t, s'.threads[i]);
    CheckStopCounts(c, s, i, t, s'.threads[i]);
  }

  lemma CheckingIsOk(c: Config, s: State, t: nat)
    ensures HelperOk(c, s, CheckingStop(t)) ==> t < Slices(c) && s.epoch <= t + 1
  {
  }

  lemma BailStages(c: Config, s: State, s': State, i: nat)
    requires Shape(c, s) && Pcs(c, s) && Stages(c, s) && 1 <= i < |s.threads| && s.threads[i].pc == Unwinding
    requires OnlyHelper(s, s', i, Thread(Lost, s.threads[i].seen.(lost := |s.lost|)))
    requires s.arrivedBase < |s'.arrived|
    ensures Pcs(c, s') && Stages(c, s')
  {
    hide Count, WellFormed, Sized;
    CountUpdate(s.threads, Gone, i, s'.threads[i]);
    assert HelperOk(c, s, s.threads[i].pc);
  }

  lemma BailCounts(c: Config, s: State, i: nat)
    requires Shape(c, s) && Spawns(c, s) && Losses(c, s) && Arrivals(c, s) && Lanes(c, s)
    requires 1 <= i < |s.threads| && s.threads[i].pc == Unwinding
    ensures var s' := StepBail(s, i); Spawns(c, s') && Losses(c, s') && Arrivals(c, s') && Lanes(c, s')
  {
    hide WellFormed, Sized;
    var s' := StepBail(s, i);
    assert s'.threads == s.threads[i := s'.threads[i]];
    CountsMove(s, i, s'.threads[i], s.epoch);
    CountBound(s.threads, Turned);
    CountBound(s.threads, Gone);
    Basics(c);
    hide Count;
  }

  lemma BailControl(c: Config, s: State, i: nat)
    requires Control(c, s) && 1 <= i < |s.threads| && s.threads[i].pc == Unwinding
    ensures Control(c, StepBail(s, i))
  {
    hide Count, WellFormed, Sized, ClaimsTo, Pcs, Stages, Spawns, Losses, Arrivals, Lanes, Partition;
    var s' := StepBail(s, i);
    BailStages(c, s, s', i);
    BailCounts(c, s, i);
    WaitedPartition(c, s, s', i);
  }

  // ---------------------------------------------------------------------------
  // The leader before the loops
  // ---------------------------------------------------------------------------

  lemma SpawnCounts(c: Config, s: State, k: nat, fails: bool)
    requires Control(c, s) && LeaderPc(s) == Spawning(k) && k < |s.threads|
    ensures var s' := StepSpawn(c, s, k, fails);
            && Count(s'.threads, ArrivedAt(0)) == Count(s.threads, ArrivedAt(0))
            && Count(s'.threads, Turned) == Count(s.threads, Turned) + One(fails)
            && Count(s'.threads, Gone) == Count(s.threads, Gone)
            && Count(s'.threads, Unwound) == Count(s.threads, Unwound)
            && Count(s'.threads, DrainedAt(0)) == Count(s.threads, DrainedAt(0))
  {
    hide Partition, Losses, Generations, Lanes, Claimed, Arrivals, Stages, WellFormed, Sized;
    var x := Thread(if fails then Refused else Claiming(0), if fails then NOTHING else s.threads[0].seen);
    CountsMove(s, k, x, 0);
    var mid := s.(threads := s.threads[k := x]);
    CountsMove(mid, 0, Thread(Spawning(k + 1), s.threads[0].seen), 0);
  }

  lemma SpawnPcs(c: Config, s: State, k: nat, fails: bool)
    requires Control(c, s) && LeaderPc(s) == Spawning(k) && k < |s.threads|
    ensures var s' := StepSpawn(c, s, k, fails); Pcs(c, s') && Spawns(c, s') && Stages(c, s')
  {
    SpawnCounts(c, s, k, fails);
    Basics(c);
    hide Count, WellFormed, Sized, Losses, Generations, Lanes, Claimed, Arrivals, Partition;
    assert s.threads[k].pc.Unborn?;
  }

  lemma SpawnPartition(c: Config, s: State, k: nat, fails: bool)
    requires Control(c, s) && LeaderPc(s) == Spawning(k) && k < |s.threads|
    ensures Partition(c, StepSpawn(c, s, k, fails))
  {
    SpawnCounts(c, s, k, fails);
    Basics(c);
    hide Count, WellFormed, Sized, Losses, Generations, Lanes, Claimed, Arrivals, Stages;
    assert s.threads[k].pc.Unborn?;
    BusyElsewhere(s, StepSpawn(c, s, k, fails), 0);
  }

  lemma SpawnControl(c: Config, s: State, k: nat, fails: bool)
    requires Control(c, s) && LeaderPc(s) == Spawning(k) && k < |s.threads|
    ensures Control(c, StepSpawn(c, s, k, fails))
  {
    SpawnCounts(c, s, k, fails);
    SpawnPcs(c, s, k, fails);
    SpawnPartition(c, s, k, fails);
    Basics(c);
    hide Count, WellFormed, ClaimsTo, Partition, Spawns, Stages;
    assert s.epoch == 0;
    hide Pcs;
  }

  /** After the last spawn. */
  lemma SpawnedControl(c: Config, s: State, k: nat)
    requires Control(c, s) && LeaderPc(s) == Spawning(k) && k >= |s.threads|
    ensures Control(c, StepSpawn(c, s, k, false))
  {
    hide Count, WellFormed, Sized, ClaimsTo;
    var s' := Goto(s, 0, Charging);
    Basics(c);
    CountsMove(s, 0, s'.threads[0], s.epoch);
    BusyElsewhere(s, s', 0);
    assert Partition(c, s') && Stages(c, s') by {
      hide Losses, Generations, Lanes, Claimed, Arrivals, Pcs, Spawns;
    }
    hide Partition, Stages;
  }

  /** The shortfall does not wrap: it is the number of refused threads. */
  lemma ChargeLosses(c: Config, s: State)
    requires Control(c, s) && LeaderPc(s) == Charging
    ensures Losses(c, StepCharge(c, s))
  {
    hide Count, WellFormed, Sized, Partition, Generations, Lanes, Claimed, Arrivals, Stages, Pcs;
    var s' := StepCharge(c, s);
    Basics(c);
    assert s'.threads == s.threads[0 := s'.threads[0]];
    CountsMove(s, 0, s'.threads[0], s.epoch);
    CountBound(s.threads, Turned);
    CountBound(s.threads, Gone);
    var shortfall := Helpers(c) - s.spawned;
    assert shortfall == Count(s.threads, Turned) <= 0xFF_FFFF;
    assert Newest(s'.lost).value == Newest(s.lost).value + shortfall;
  }

  lemma ChargePcs(c: Config, s: State)
    requires Control(c, s) && LeaderPc(s) == Charging
    ensures Pcs(c, StepCharge(c, s)) && Spawns(c, StepCharge(c, s))
  {
    var s' := StepCharge(c, s);
    assert s'.threads == s.threads[0 := s'.threads[0]];
    CountsMove(s, 0, s'.threads[0], s.epoch);
    assert 0 < Slices(c);
    hide Count, WellFormed, Sized, Partition, Generations, Lanes, Claimed, Arrivals, Stages, Losses, AddRelaxed;
  }

  lemma ChargePartition(c: Config, s: State)
    requires Control(c, s) && LeaderPc(s) == Charging
    ensures Partition(c, StepCharge(c, s)) && Stages(c, StepCharge(c, s))
  {
    var s' := StepCharge(c, s);
    assert s'.threads == s.threads[0 := s'.threads[0]];
    CountsMove(s, 0, s'.threads[0], s.epoch);
    hide Count, WellFormed, Sized, Spawns, Losses, Generations, Lanes, Claimed, Arrivals;
    BusyElsewhere(s, s', 0);
  }

  lemma ChargeControl(c: Config, s: State)
    requires Control(c, s) && LeaderPc(s) == Charging
    ensures Control(c, StepCharge(c, s))
  {
    hide Count, WellFormed, Sized, ClaimsTo, Losses, Partition, Stages, Pcs, Spawns;
    var s' := StepCharge(c, s);
    ChargeLosses(c, s);
    ChargePcs(c, s);
    ChargePartition(c, s);
    CountsMove(s, 0, s'.threads[0], s.epoch);
    assert s'.threads == s.threads[0 := s'.threads[0]];
  }
}
