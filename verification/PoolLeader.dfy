/** The leader's steps at the barrier, and after the loops, keep control in order. */
module PoolLeader {
  import opened Machine
  import opened Params
  import opened Indexing
  import opened Fill
  import opened SliceView
  import opened Pool
  import opened PoolInvariant
  import opened PoolControl

  // ---------------------------------------------------------------------------
  // Waiting for the helpers
  // ---------------------------------------------------------------------------

  lemma LoadArrivedControl(c: Config, s: State, t: nat, read: nat)
    requires Control(c, s) && LeaderPc(s) == LoadingArrived(t) && read < |s.arrived|
    ensures Control(c, StepLoadArrived(s, t, read))
  {
    hide Partition, Spawns, Losses, Generations, Lanes, Claimed, Arrivals, WellFormed, Sized, Count;
    var s' := StepLoadArrived(s, t, read);
    assert LeaderOk(c, s') && Stages(c, s');
    hide Control;
    SimilarMove(c, s, 0, s'.threads[0]);
  }

  /**
   The wait condition, on two loads made at different times, is met only when every helper has
   arrived, was refused or is lost; and then both loads were of the newest values.
   */
  lemma BarrierMet(c: Config, s: State, t: nat, arrived: nat, read: nat)
    requires Control(c, s) && LeaderPc(s) == LoadingLost(t, arrived) && read < |s.lost|
    requires s.arrivedBase + arrived < |s.arrived|
    requires arrived + s.lost[read].value >= Helpers(c)
    ensures forall i :: 1 <= i < |s.threads| ==> Belongs(s.threads[i].pc, SettledAt(s.epoch))
    ensures arrived == Count(s.threads, ArrivedAt(s.epoch)) == |s.arrived| - 1 - s.arrivedBase
    ensures forall k :: read <= k < |s.lost| ==> s.lost[k].value == Newest(s.lost).value
  {
    CountToSplit(s.threads, s.epoch, |s.threads|);
    CountBound(s.threads, SettledAt(s.epoch));
    Basics(c);
    hide WellFormed, Sized, Partition, Claimed, Lanes, Generations, Spawns, Stages, Count;
    assert forall k :: read <= k < |s.lost| ==> s.lost[read].value <= s.lost[k].value <= s.lost[|s.lost| - 1].value;
    assert Helpers(c) == |s.threads| - 1;
    assert Count(s.threads, SettledAt(s.epoch)) == Count(s.threads, ArrivedAt(s.epoch)) + Count(s.threads, Turned)
      + Count(s.threads, Gone);
  }

  lemma LoadLostControl(c: Config, s: State, t: nat, arrived: nat, read: nat)
    requires Control(c, s) && Knowledge(c, s) && LeaderPc(s) == LoadingLost(t, arrived)
    requires read < |s.lost|
    ensures Control(c, StepLoadLost(c, s, t, arrived, read))
  {
    hide Partition, Spawns, Losses, Generations, Lanes, Claimed, Arrivals, WellFormed, Sized, Count;
    var s' := StepLoadLost(c, s, t, arrived, read);
    assert s.arrivedBase + arrived < |s.arrived| by {
      hide Control, AllBounded, Own, HelperSeen, Published;
    }
    hide Knowledge;
    if arrived + s.lost[read].value >= Helpers(c) {
      BarrierMet(c, s, t, arrived, read);
    }
    assert LeaderOk(c, s') && Stages(c, s');
    hide Control;
    SimilarMove(c, s, 0, s'.threads[0]);
  }

  /** Nobody lost at the barrier: everyone is parked and the slice is complete. */
  lemma BarrierQuiet(c: Config, s: State, t: nat)
    requires Control(c, s) && LeaderPc(s) == CheckingLost(t) && Count(s.threads, Gone) == 0
    ensures forall i :: 1 <= i < |s.threads| ==> Waiting(s.threads[i].pc, s.epoch) || s.threads[i].pc.Refused?
    ensures s.progress == FullProgress(c.inst)
  {
    CountBound(s.threads, Gone);
    hide WellFormed, Sized, Claimed, Generations, Spawns, Losses, Arrivals, Count;
    forall i | 1 <= i < |s.threads|
      ensures Waiting(s.threads[i].pc, s.epoch) || s.threads[i].pc.Refused?
    {
      assert Belongs(s.threads[i].pc, SettledAt(s.epoch)) && !Belongs(s.threads[i].pc, Gone);
    }
    assert Count(s.threads, Unwound) == 0 by {
      CountToNone(s.threads, Unwound, |s.threads|);
      CountIsCountTo(s.threads, Unwound);
    }
    forall l | 0 <= l < c.inst.lanes
      ensures s.progress[l] == c.inst.layout.segmentLength
    {
      assert !Busy(s, l);
      assert l < Newest(s.nextLane).value;
    }
  }

  lemma CountIsCountTo(threads: seq<Thread>, k: Class)
    ensures Count(threads, k) == CountTo(threads, k, |threads|)
  {
  }

  /** What the leader's relaxed load of `lost` decides. */
  lemma CheckLostDecides(c: Config, s: State, t: nat, read: nat)
    requires Control(c, s) && Knowledge(c, s) && LeaderPc(s) == CheckingLost(t)
    requires s.threads[0].seen.lost <= read < |s.lost|
    ensures s.lost[read].value > Helpers(c) - s.spawned <==> Count(s.threads, Gone) > 0
  {
    assert s.lost[s.threads[0].seen.lost].value == Newest(s.lost).value by {
      hide Control, AllBounded, Own, HelperSeen, Published;
    }
    hide Knowledge, WellFormed, Sized, Partition, Claimed, Lanes, Generations, Stages, Arrivals, Count;
    assert s.lost[read].value == Newest(s.lost).value;
  }

  lemma CheckLostControl(c: Config, s: State, t: nat, read: nat)
    requires Control(c, s) && Knowledge(c, s) && LeaderPc(s) == CheckingLost(t)
    requires s.threads[0].seen.lost <= read < |s.lost|
    ensures Control(c, StepCheckLost(c, s, t, read))
  {
    hide Partition, Spawns, Losses, Generations, Lanes, Claimed, Arrivals, WellFormed, Sized, Count;
    var s' := StepCheckLost(c, s, t, read);
    CheckLostDecides(c, s, t, read);
    hide Knowledge;
    CountUpdate(s.threads, Gone, 0, s'.threads[0]);
    if Count(s.threads, Gone) > 0 {
      assert LeaderOk(c, s');
      hide Control;
      LeavingMove(c, s, s'.threads[0]);
    } else {
      BarrierQuiet(c, s, t);
      assert LeaderOk(c, s') && Stages(c, s');
      hide Control;
      SimilarMove(c, s, 0, s'.threads[0]);
    }
  }

  // ---------------------------------------------------------------------------
  // Everyone is parked
  // ---------------------------------------------------------------------------

  /** A longer log and other traces. */
  predicate SameButRecord(s: State, s': State) {
    s' == s.(log := s'.log, traces := s'.traces) && |s.log| <= |s'.log|
  }

  lemma RecordPartition(c: Config, s: State, s': State)
    requires Shape(c, s) && Partition(c, s) && SameButRecord(s, s')
    ensures Partition(c, s')
  {
    hide Count, WellFormed;
    forall l | Busy(s, l)
      ensures Busy(s', l)
    {
      var i :| 0 <= i < |s.threads| && Fills(s, i, l);
      assert Fills(s', i, l);
    }
    hide Busy;
  }

  lemma RecordPcs(c: Config, s: State, s': State)
    requires Shape(c, s) && Pcs(c, s) && SameButRecord(s, s')
    ensures Pcs(c, s')
  {
    hide Count, WellFormed;
    forall i | 1 <= i < |s.threads|
      ensures HelperOk(c, s', s.threads[i].pc)
    {
      assert HelperOk(c, s, s.threads[i].pc);
    }
  }

  lemma RecordCounts(c: Config, s: State, s': State)
    requires Shape(c, s) && Spawns(c, s) && Losses(c, s) && Arrivals(c, s) && Lanes(c, s) && SameButRecord(s, s')
    ensures Spawns(c, s') && Losses(c, s') && Arrivals(c, s') && Lanes(c, s')
  {
    hide Count, WellFormed;
  }

  lemma RecordStages(c: Config, s: State, s': State)
    requires Shape(c, s) && Generations(c, s) && Claimed(c, s) && Stages(c, s) && SameButRecord(s, s')
    ensures Generations(c, s') && Claimed(c, s') && Stages(c, s')
  {
    hide Count, WellFormed;
  }

  /** The log and the traces have no part in control. */
  lemma RecordIrrelevant(c: Config, s: State, log: seq<Access>, traces: seq<seq<Block>>)
    requires Control(c, s) && |s.log| <= |log|
    ensures Control(c, s.(log := log, traces := traces))
  {
    hide Pcs, Spawns, Losses, Generations, Arrivals, Lanes, Claimed, Partition, Stages, WellFormed;
    var s' := s.(log := log, traces := traces);
    RecordPcs(c, s, s');
    RecordPartition(c, s, s');
    RecordCounts(c, s, s');
    RecordStages(c, s, s');
  }

  lemma TraceControl(c: Config, s: State, t: nat, fails: bool)
    requires Control(c, s) && LeaderPc(s) == Tracing(t)
    ensures Control(c, StepTrace(s, t, fails))
  {
    hide Partition, Spawns, Losses, Generations, Lanes, Claimed, Arrivals, WellFormed, Sized, Count;
    var s' := StepTrace(s, t, fails);
    RecordIrrelevant(c, s, s'.log, s'.traces);
    var s1 := s.(log := s'.log, traces := s'.traces);
    assert s' == s1.(threads := s1.threads[0 := s'.threads[0]]);
    assert LeaderOk(c, s') && (!fails ==> Stages(c, s')) by { hide Shape; }
    hide Control;
    if fails {
      LeavingMove(c, s1, s'.threads[0]);
    } else {
      SimilarMove(c, s1, 0, s'.threads[0]);
    }
  }

  /** While everyone is parked nobody fills. */
  lemma QuietHere(c: Config, s: State)
    requires Control(c, s) && Quiet(LeaderPc(s))
    ensures s.epoch < Slices(c) && s.progress == FullProgress(c.inst)
    ensures forall i :: 0 <= i < |s.threads| ==> !s.threads[i].pc.Filling?
    ensures forall i :: 1 <= i < |s.threads| ==> Waiting(s.threads[i].pc, s.epoch) || s.threads[i].pc.Refused?
  {
    hide Partition, Spawns, Losses, Generations, Lanes, Claimed, Arrivals, WellFormed, Sized, Count;
  }

  lemma ResetLaneControl(c: Config, s: State, t: nat)
    requires Control(c, s) && LeaderPc(s) == ResettingLane(t)
    ensures Control(c, StepResetLane(s, t))
  {
    hide Count, WellFormed, Sized, ClaimsTo;
    var s' := StepResetLane(s, t);
    QuietHere(c, s);
    CountsMove(s, 0, s'.threads[0], s.epoch);
    assert s'.threads == s.threads[0 := s'.threads[0]];
    assert Partition(c, s') by {
      hide Spawns, Losses, Generations, Lanes, Claimed, Arrivals, Stages;
    }
    assert Claimed(c, s') by {
      hide Spawns, Losses, Generations, Partition, Arrivals, Stages;
    }
    hide Partition, Claimed;
    assert Pcs(c, s') && Spawns(c, s') && Stages(c, s');
    hide Pcs, Spawns, Stages;
  }

  lemma ResetArrivedControl(c: Config, s: State, t: nat)
    requires Control(c, s) && LeaderPc(s) == ResettingArrived(t)
    ensures Control(c, StepResetArrived(s, t))
  {
    hide Count, WellFormed, Sized, ClaimsTo;
    var s' := StepResetArrived(s, t);
    QuietHere(c, s);
    CountsMove(s, 0, s'.threads[0], s.epoch);
    assert s'.threads == s.threads[0 := s'.threads[0]];
    assert Partition(c, s') && Claimed(c, s') by {
      hide Spawns, Losses, Generations, Arrivals, Stages, Pcs;
    }
    hide Partition, Claimed;
    assert Pcs(c, s') && Spawns(c, s') && Stages(c, s');
    hide Pcs, Spawns, Stages;
  }

  // ---------------------------------------------------------------------------
  // The next slice
  // ---------------------------------------------------------------------------

  /** The counts of the new epoch are zero, and the others do not change. */
  lemma PublishCounts(c: Config, s: State, t: nat)
    requires Control(c, s) && LeaderPc(s) == Publishing(t)
    ensures var ths := StepPublish(c, s, t).threads;
            && Count(ths, ArrivedAt(t + 1)) == 0
            && Count(ths, DrainedAt(t + 1)) == 0
            && Count(ths, Turned) == Count(s.threads, Turned)
            && Count(ths, Gone) == Count(s.threads, Gone)
  {
    var s' := StepPublish(c, s, t);
    QuietHere(c, s);
    CountsMove(s, 0, s'.threads[0], s.epoch);
    assert s'.threads == s.threads[0 := s'.threads[0]];
    hide Partition, Spawns, Losses, Generations, Lanes, Claimed, Arrivals, WellFormed, Sized;
    CountToNone(s'.threads, ArrivedAt(t + 1), |s.threads|);
    CountToNone(s'.threads, DrainedAt(t + 1), |s.threads|);
  }

  lemma PublishPcs(c: Config, s: State, t: nat)
    requires Control(c, s) && LeaderPc(s) == Publishing(t)
    ensures var s' := StepPublish(c, s, t);
            Shape(c, s') && Pcs(c, s') && Spawns(c, s') && Stages(c, s') && Losses(c, s')
  {
    hide Pcs, Spawns, Losses, Partition, Generations, Lanes, Claimed, Arrivals, Stages, WellFormed, Count;
    QuietHere(c, s);
    PublishingAt(c, s, t);
    PublishCounts(c, s, t);
    PublishShape(c, s, t);
    PublishPlaces(c, s, t);
    PublishSpawns(c, s, t);
  }

  lemma PublishingAt(c: Config, s: State, t: nat)
    requires |s.threads| > 0 && Pcs(c, s) && LeaderPc(s) == Publishing(t)
    ensures t == s.epoch
  {
  }

  lemma PublishPlaces(c: Config, s: State, t: nat)
    requires Shape(c, s) && Pcs(c, s) && LeaderPc(s) == Publishing(t) && t < Slices(c)
    requires forall i :: 1 <= i < |s.threads| ==> Waiting(s.threads[i].pc, s.epoch) || s.threads[i].pc.Refused?
    ensures var s' := StepPublish(c, s, t); Pcs(c, s') && Stages(c, s')
  {
    hide WellFormed, Sized, ValidProgress, Count, Stamp;
    Basics(c);
  }

  lemma PublishSpawns(c: Config, s: State, t: nat)
    requires Shape(c, s) && Spawns(c, s) && Losses(c, s) && LeaderPc(s) == Publishing(t)
    requires var ths := StepPublish(c, s, t).threads;
             Count(ths, Turned) == Count(s.threads, Turned) && Count(ths, Gone) == Count(s.threads, Gone)
    ensures var s' := StepPublish(c, s, t); Spawns(c, s') && Losses(c, s')
  {
    hide WellFormed, Sized, ValidProgress, Count, Stamp;
  }

  lemma PublishShape(c: Config, s: State, t: nat)
    requires Shape(c, s) && LeaderPc(s) == Publishing(t) && t < Slices(c)
    ensures Shape(c, StepPublish(c, s, t))
  {
    hide WellFormed;
  }

  lemma PublishGenerations(c: Config, s: State, t: nat)
    requires Control(c, s) && LeaderPc(s) == Publishing(t)
    ensures Generations(c, StepPublish(c, s, t))
  {
    hide Partition, Spawns, Losses, Lanes, Claimed, Arrivals, WellFormed, Sized, Stages;
  }

  lemma PublishLanes(c: Config, s: State, t: nat)
    requires Control(c, s) && LeaderPc(s) == Publishing(t)
    ensures var s' := StepPublish(c, s, t); Partition(c, s') && Lanes(c, s') && Claimed(c, s') && Arrivals(c, s')
  {
    var s' := StepPublish(c, s, t);
    QuietHere(c, s);
    PublishCounts(c, s, t);
    PublishPcs(c, s, t);
    hide Spawns, Losses, Generations, WellFormed, Sized, Stages, Count;
    assert Newest(s.nextLane).value == 0;
    assert Lanes(c, s') && Arrivals(c, s');
    assert Claimed(c, s') by {
      hide Partition, Lanes, Arrivals;
      assert SliceClaims(t + 1, 0) == [];
    }
    assert Partition(c, s') by {
      hide Claimed, Lanes, Arrivals;
    }
  }

  lemma PublishControl(c: Config, s: State, t: nat)
    requires Control(c, s) && LeaderPc(s) == Publishing(t)
    ensures Control(c, StepPublish(c, s, t))
  {
    PublishPcs(c, s, t);
    PublishGenerations(c, s, t);
    PublishLanes(c, s, t);
    hide Shape, Pcs, Spawns, Losses, Generations, Arrivals, Lanes, Claimed, Partition, Stages;
  }

  // ---------------------------------------------------------------------------
  // After the loops
  // ---------------------------------------------------------------------------

  lemma LeftMove(c: Config, s: State, x: Thread, generation: History, stop: History)
    requires Control(c, s) && Left(LeaderPc(s)) && Left(x.pc)
    requires var s' := s.(threads := s.threads[0 := x], generation := generation, stop := stop);
             LeaderOk(c, s') && Generations(c, s')
    ensures Control(c, s.(threads := s.threads[0 := x], generation := generation, stop := stop))
  {
    hide Count, WellFormed, Sized, ClaimsTo, Generations;
    var s' := s.(threads := s.threads[0 := x], generation := generation, stop := stop);
    CountsMove(s, 0, x, s.epoch);
    assert Partition(c, s') && Stages(c, s') && Claimed(c, s');
    hide Partition, Stages, Claimed;
    assert Pcs(c, s');
    hide Pcs;
  }

  lemma StopControl(c: Config, s: State, next: Pc)
    requires Control(c, s)
    requires (LeaderPc(s).Stopping? && next == BumpingStop)
          || (LeaderPc(s).Releasing? && next == BumpingRelease(LeaderPc(s).clean))
    ensures Control(c, StepStop(s, next))
  {
    hide Partition, Spawns, Losses, Lanes, Claimed, Arrivals, WellFormed, Sized, Stages, Count;
    var s' := StepStop(s, next);
    CountUpdate(s.threads, Gone, 0, s'.threads[0]);
    assert LeaderOk(c, s') && Generations(c, s');
    hide Control;
    LeftMove(c, s, s'.threads[0], s'.generation, s'.stop);
  }

  lemma StampNext(n: nat)
    ensures WrapAdd(Stamp(n), 1) == Stamp(n + 1)
  {
  }

  lemma BumpGenerations(c: Config, s: State, next: Pc)
    requires |s.threads| > 0 && Generations(c, s)
    requires (LeaderPc(s).BumpingStop? && next == Releasing(true))
          || (LeaderPc(s).BumpingRelease? && next == Joining(LeaderPc(s).clean))
    ensures Generations(c, StepBump(s, next))
  {
    hide Stamp, WrapAdd;
    StampNext(|s.generation| - 1);
  }

  lemma BumpControl(c: Config, s: State, next: Pc)
    requires Control(c, s)
    requires (LeaderPc(s).BumpingStop? && next == Releasing(true))
          || (LeaderPc(s).BumpingRelease? && next == Joining(LeaderPc(s).clean))
    ensures Control(c, StepBump(s, next))
  {
    hide Partition, Spawns, Losses, Lanes, Claimed, Arrivals, WellFormed, Sized, Stages, Count, Generations, Stamp,
         WrapAdd;
    var s' := StepBump(s, next);
    CountUpdate(s.threads, Gone, 0, s'.threads[0]);
    BumpGenerations(c, s, next);
    assert LeaderOk(c, s');
    hide Control;
    LeftMove(c, s, s'.threads[0], s'.generation, s'.stop);
  }

  lemma JoinControl(c: Config, s: State, clean: bool)
    requires Control(c, s) && LeaderPc(s) == Joining(clean)
    requires forall i :: 1 <= i < |s.threads| ==> Ended(s.threads[i].pc)
    ensures Control(c, StepJoin(s, clean))
  {
    hide JoinAll;
    var s' := StepJoin(s, clean);
    CountUpdate(s.threads, Gone, 0, s'.threads[0]);
    assert Generations(c, s') by {
      hide Partition, Spawns, Losses, Lanes, Claimed, Arrivals, WellFormed, Sized, Stages, Count;
    }
    if clean && !SomeoneLost(s) {
      forall i | 1 <= i < |s.threads|
        ensures !Belongs(s.threads[i].pc, Gone) && (s'.threads[i].pc.Done? || s'.threads[i].pc.Refused?)
      {
      }
      CountToNone(s.threads, Gone, |s.threads|);
    }
    assert LeaderOk(c, s') by {
      hide Partition, Spawns, Losses, Lanes, Claimed, Arrivals, WellFormed, Sized, Stages, Generations;
    }
    hide Control;
    LeftMove(c, s, s'.threads[0], s'.generation, s'.stop);
  }
}
